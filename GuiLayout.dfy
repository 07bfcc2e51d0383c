// The data side of the YAML-driven GUI: widget records, the string-to-enum lookups, the
// factory's defaults, variable substitution in labels, the LIST widget's source tokenising,
// the recursive state reset and the registration of default callbacks. ImGui drawing and
// YAML parsing are outside the model; a parsed YAML node appears as an EventNode value.

module Gui {
  import opened Base
  import opened GuiCallbacks
  import opened GuiText

  datatype WidgetType =
    | ImageButton | ProgressBar | ColorPicker | TextInput | Separator | TreeNode | MenuBar
    | Checkbox | TabBar | Spinner | Window | Slider | Button | Combo | Group | Image | Text
    | List | Tab

  datatype WidgetState =
    | Normal | Active | Hovered | Focused | Disabled | ReadOnly | Error | Success | Warning
    | Info | Debug | Trace

  datatype WidgetCallback = OnClick | OnHover | OnFocus | OnActive | OnChange | OnScroll

  /** The enumerator's name as spelled in the C++ enum and in the layout files. */
  function TypeName(t: WidgetType): string
  {
    match t
    case ImageButton => "IMAGE_BUTTON"
    case ProgressBar => "PROGRESS_BAR"
    case ColorPicker => "COLOR_PICKER"
    case TextInput => "TEXT_INPUT"
    case Separator => "SEPARATOR"
    case TreeNode => "TREE_NODE"
    case MenuBar => "MENU_BAR"
    case Checkbox => "CHECKBOX"
    case TabBar => "TAB_BAR"
    case Spinner => "SPINNER"
    case Window => "WINDOW"
    case Slider => "SLIDER"
    case Button => "BUTTON"
    case Combo => "COMBO"
    case Group => "GROUP"
    case Image => "IMAGE"
    case Text => "TEXT"
    case List => "LIST"
    case Tab => "TAB"
  }

  function StateName(s: WidgetState): string
  {
    match s
    case Normal => "NORMAL"
    case Active => "ACTIVE"
    case Hovered => "HOVERED"
    case Focused => "FOCUSED"
    case Disabled => "DISABLED"
    case ReadOnly => "READ_ONLY"
    case Error => "ERROR"
    case Success => "SUCCESS"
    case Warning => "WARNING"
    case Info => "INFO"
    case Debug => "DEBUG"
    case Trace => "TRACE"
  }

  function CallbackName(c: WidgetCallback): string
  {
    match c
    case OnClick => "ON_CLICK"
    case OnHover => "ON_HOVER"
    case OnFocus => "ON_FOCUS"
    case OnActive => "ON_ACTIVE"
    case OnChange => "ON_CHANGE"
    case OnScroll => "ON_SCROLL"
  }

  /** The 18 type names the factory recognises: every type's name except IMAGE_BUTTON's. */
  const ParsedTypeNames: set<string> := {
    "PROGRESS_BAR", "COLOR_PICKER", "TEXT_INPUT", "TREE_NODE", "SEPARATOR", "CHECKBOX",
    "MENU_BAR", "TAB_BAR", "SPINNER", "WINDOW", "BUTTON", "SLIDER", "COMBO", "IMAGE", "GROUP",
    "TEXT", "LIST", "TAB"}

  /** The 6 state names the factory recognises; the other six states cannot be named in a layout. */
  const ParsedStateNames: set<string> := {
    "READ_ONLY", "DISABLED", "HOVERED", "FOCUSED", "NORMAL", "ACTIVE"}

  const ParsedCallbackNames: set<string> := {
    "ON_ACTIVE", "ON_CHANGE", "ON_SCROLL", "ON_CLICK", "ON_HOVER", "ON_FOCUS"}

  /** WidgetFactory::GetWidgetType: a recognised name gives the type of that name, anything else
      gives BUTTON (after logging an error). IMAGE_BUTTON is never produced. */
  function GetWidgetType(str: string): (t: WidgetType)
    ensures t != ImageButton
    ensures str in ParsedTypeNames ==> TypeName(t) == str
    ensures str !in ParsedTypeNames ==> t == Button
  {
    if str == "PROGRESS_BAR" then ProgressBar
    else if str == "COLOR_PICKER" then ColorPicker
    else if str == "TEXT_INPUT" then TextInput
    else if str == "TREE_NODE" then TreeNode
    else if str == "SEPARATOR" then Separator
    else if str == "CHECKBOX" then Checkbox
    else if str == "MENU_BAR" then MenuBar
    else if str == "TAB_BAR" then TabBar
    else if str == "SPINNER" then Spinner
    else if str == "WINDOW" then Window
    else if str == "BUTTON" then Button
    else if str == "SLIDER" then Slider
    else if str == "COMBO" then Combo
    else if str == "IMAGE" then Image
    else if str == "GROUP" then Group
    else if str == "TEXT" then Text
    else if str == "LIST" then List
    else if str == "TAB" then Tab
    else Button
  }

  /** WidgetFactory::GetWidgetState: six names are recognised, anything else gives NORMAL. */
  function GetWidgetState(str: string): (s: WidgetState)
    ensures s in {Normal, Active, Hovered, Focused, Disabled, ReadOnly}
    ensures str in ParsedStateNames ==> StateName(s) == str
    ensures str !in ParsedStateNames ==> s == Normal
  {
    if str == "READ_ONLY" then ReadOnly
    else if str == "DISABLED" then Disabled
    else if str == "HOVERED" then Hovered
    else if str == "FOCUSED" then Focused
    else if str == "NORMAL" then Normal
    else if str == "ACTIVE" then Active
    else Normal
  }

  /** WidgetFactory::GetWidgetCallback: all six names are recognised, anything else gives ON_CLICK. */
  function GetWidgetCallback(str: string): (c: WidgetCallback)
    ensures str in ParsedCallbackNames ==> CallbackName(c) == str
    ensures str !in ParsedCallbackNames ==> c == OnClick
  {
    if str == "ON_ACTIVE" then OnActive
    else if str == "ON_CHANGE" then OnChange
    else if str == "ON_SCROLL" then OnScroll
    else if str == "ON_CLICK" then OnClick
    else if str == "ON_HOVER" then OnHover
    else if str == "ON_FOCUS" then OnFocus
    else OnClick
  }

  /** Parsing a type's own name gives that type back, for every type but IMAGE_BUTTON. */
  lemma TypeNameRoundTrip(t: WidgetType)
    ensures t != ImageButton <==> GetWidgetType(TypeName(t)) == t
  {
  }

  /** Parsing a state's own name gives it back exactly for the six recognised states; the others
      come back as NORMAL. */
  lemma StateNameRoundTrip(s: WidgetState)
    ensures GetWidgetState(StateName(s)) == s <==> StateName(s) in ParsedStateNames
    ensures StateName(s) !in ParsedStateNames ==> GetWidgetState(StateName(s)) == Normal
  {
  }

  lemma CallbackNameRoundTrip(c: WidgetCallback)
    ensures GetWidgetCallback(CallbackName(c)) == c
  {
  }

  /** The label CreateWidget gives a fresh widget of each type. */
  function DefaultLabel(t: WidgetType): (text: string)
    ensures text == "Button" <==> t == Button
    ensures text == "Slider" <==> t == Slider
    ensures text == "" <==> t != Button && t != Slider
  {
    match t
    case Button => "Button"
    case Slider => "Slider"
    case _ => ""
  }

  /** CreateWidget labels any unrecognised type as a button. */
  lemma UnknownTypeIsButton(str: string)
    requires str !in ParsedTypeNames
    ensures DefaultLabel(GetWidgetType(str)) == "Button"
  {
  }

  /** The fallback variables a LIST widget reads, in order of preference. */
  const CommonListVariables: seq<string> :=
    ["components_list", "entity_components", "selected_entity", "entity_list"]

  function FirstPresent(names: seq<string>, vars: map<string, string>): (r: Option<string>)
    ensures r.Some? ==> r.value in names && r.value in vars
    ensures r.None? <==> forall n | n in names :: n !in vars
  {
    if names == [] then None
    else if names[0] in vars then Some(names[0])
    else FirstPresent(names[1..], vars)
  }

  /** The variable a LIST widget takes its items from: its own source variable when set and
      present, else its name when present, else the first present common variable. */
  function ListSource(sourceVar: string, name: string, vars: map<string, string>): (r: Option<string>)
    ensures r.Some? ==> r.value in vars
    ensures sourceVar != "" && sourceVar in vars ==> r == Some(sourceVar)
    ensures !(sourceVar != "" && sourceVar in vars) && name != "" && name in vars ==> r == Some(name)
    ensures r.None? <==>
      && (sourceVar == "" || sourceVar !in vars)
      && (name == "" || name !in vars)
      && (forall n | n in CommonListVariables :: n !in vars)
  {
    if sourceVar != "" && sourceVar in vars then Some(sourceVar)
    else if name != "" && name in vars then Some(name)
    else FirstPresent(CommonListVariables, vars)
  }

  // ---------------------------------------------------------------------------------------
  // Changes collected while rendering

  /** The value the last change to `key` sets, if any change does. */
  function LastChange(changes: seq<(string, string)>, key: string): (r: Option<string>)
    ensures r.None? <==> forall c | c in changes :: c.0 != key
    ensures r.Some? ==> (key, r.value) in changes
    decreases |changes|
  {
    if changes == [] then None
    else if changes[|changes| - 1].0 == key then Some(changes[|changes| - 1].1)
    else
      assert forall c | c in changes[..|changes| - 1] :: c in changes;
      LastChange(changes[..|changes| - 1], key)
  }

  /** The loop at the end of GuiLayout::Render: every change is written into the variables, so a
      variable changed several times ends with its last value and the others keep theirs. */
  method ApplyChanges(variables: map<string, string>, changes: seq<(string, string)>)
    returns (updated: map<string, string>)
    ensures forall k :: k in updated <==> k in variables || LastChange(changes, k).Some?
    ensures forall k | k in updated ::
      updated[k] == (if LastChange(changes, k).Some? then LastChange(changes, k).value else variables[k])
  {
    updated := variables;
    for i := 0 to |changes|
      invariant forall k :: k in updated <==> k in variables || LastChange(changes[..i], k).Some?
      invariant forall k | k in updated ::
        updated[k] == (if LastChange(changes[..i], k).Some? then LastChange(changes[..i], k).value
                       else variables[k])
    {
      assert changes[..i + 1][..i] == changes[..i];
      updated := updated[changes[i].0 := changes[i].1];
    }
    assert changes[..|changes|] == changes;
  }

  // ---------------------------------------------------------------------------------------
  // Widgets

  /** A parsed YAML widget node, as far as callback registration reads it: its events (event
      name to callback name) and its child nodes. */
  datatype EventNode = EventNode(events: seq<(string, string)>, children: seq<EventNode>)

  /** The callback names of a list of events. */
  function EventNames(events: seq<(string, string)>): set<string>
  {
    set e | e in events :: e.1
  }

  /** Every callback name the node and its descendants mention. */
  function EventCallbackNames(node: EventNode): set<string>
  {
    EventNames(node.events)
    + (set c, n | c in node.children && n in EventCallbackNames(c) :: n)
  }

  /** Gui::Widget. The children are fixed once the widget is built (only the YAML loader, which is
      outside the model, adds them), and Repr is the widget with all its descendants. */
  class Widget {
    var name: string
    var typeName: string
    var labelText: string
    var tooltip: string
    var icon: string
    var value: real
    var items: seq<string>
    var selectedIndex: int
    var valueStr: string
    var widgetType: WidgetType
    var widgetState: WidgetState
    var position: (real, real)
    var size: (real, real)
    var color: (real, real, real, real)
    var rotation: real
    var events: map<WidgetCallback, string>
    var states: map<WidgetState, string>
    var listSourceVariable: string
    const children: seq<Widget>
    var parent: Widget?
    ghost const Repr: set<Widget>
    ghost const height: nat

    ghost predicate Valid()
      decreases height
    {
      && Repr == {this} + Below(children)
      && (forall c | c in children :: c.height < height && c.Valid())
    }

    /** The member initialisers of Gui::Widget. */
    ghost predicate HasDefaults()
      reads this
    {
      && name == "" && typeName == "" && labelText == "" && tooltip == "" && icon == ""
      && value == 0.0 && items == [] && selectedIndex == 0 && valueStr == ""
      && widgetType == Button && widgetState == Normal
      && position == (0.0, 0.0) && size == (0.0, 0.0) && color == (1.0, 1.0, 1.0, 1.0)
      && rotation == 0.0 && events == map[] && states == map[] && listSourceVariable == ""
      && parent == null
    }

    /** A default-initialised widget without children. */
    constructor ()
      ensures Valid() && HasDefaults() && children == [] && Repr == {this}
    {
      name, typeName, labelText, tooltip, icon := "", "", "", "", "";
      value, items, selectedIndex, valueStr := 0.0, [], 0, "";
      widgetType, widgetState := Button, Normal;
      position, size, color, rotation := (0.0, 0.0), (0.0, 0.0), (1.0, 1.0, 1.0, 1.0), 0.0;
      events, states, listSourceVariable := map[], map[], "";
      children, parent := [], null;
      Repr, height := {this}, 0;
    }

    /** A default-initialised widget over the given children, each of which gets it as parent. */
    constructor WithChildren(cs: seq<Widget>)
      requires forall c | c in cs :: c.Valid()
      modifies cs`parent
      ensures Valid() && HasDefaults() && children == cs
    {
      name, typeName, labelText, tooltip, icon := "", "", "", "", "";
      value, items, selectedIndex, valueStr := 0.0, [], 0, "";
      widgetType, widgetState := Button, Normal;
      position, size, color, rotation := (0.0, 0.0), (0.0, 0.0), (1.0, 1.0, 1.0, 1.0), 0.0;
      events, states, listSourceVariable := map[], map[], "";
      children, parent := cs, null;
      Repr, height := {this} + Below(cs), MaxHeight(cs) + 1;
      new;
      for i := 0 to |cs|
        invariant HasDefaults()
      {
        cs[i].parent := this;
      }
    }

    /** Widget::SubstituteVariables: for each variable, in the map's iteration order, every
        "${key}" and then every bare key is replaced by the value. The empty key, on which the
        bare-key loop never ends (EmptyKeyLoopNeverEnds), is skipped. */
    method SubstituteVariables(input: string, vars: map<string, string>)
      returns (output: string, ghost order: seq<string>)
      ensures NoDup(order) && (forall k :: k in order <==> k in vars && k != "")
      ensures output == SubstituteInOrder(input, vars, order)
      ensures (forall k | k in vars && k != "" :: !Occurs(input, k)) ==> output == input
    {
      output := input;
      order := [];
      var remaining := vars.Keys;
      while remaining != {}
        invariant remaining <= vars.Keys
        invariant forall k :: k in order <==> k in vars && k != "" && k !in remaining
        invariant NoDup(order)
        invariant output == SubstituteInOrder(input, vars, order)
        decreases |remaining|
      {
        var key :| key in remaining;
        if key != "" {
          output := ReplaceLoop(output, Braced(key), vars[key]);
          output := ReplaceLoop(output, key, vars[key]);
          order := order + [key];
        }
        remaining := remaining - {key};
      }
      if forall k | k in vars && k != "" :: !Occurs(input, k) {
        SubstituteNoKeys(input, vars, order);
      }
    }
  }

  /** The widgets in the subtrees of the given widgets. */
  ghost function Below(cs: seq<Widget>): set<Widget>
  {
    set c, x | c in cs && x in c.Repr :: x
  }

  /** One more widget's subtree. */
  lemma BelowSnoc(cs: seq<Widget>, i: nat)
    requires i < |cs|
    ensures Below(cs[..i + 1]) == Below(cs[..i]) + cs[i].Repr
  {
    assert cs[..i + 1] == cs[..i] + [cs[i]];
  }

  ghost function MaxHeight(cs: seq<Widget>): (h: nat)
    ensures forall c | c in cs :: c.height <= h
  {
    if cs == [] then 0 else Max(cs[0].height, MaxHeight(cs[1..]))
  }

  /** WidgetFactory::CreateWidget: a fresh childless widget with the type string and name, the
      parsed type and that type's default label; everything else keeps its initial value. */
  method CreateWidget(typeName: string, name: string := "") returns (w: Widget)
    ensures fresh(w) && w.Valid() && w.children == []
    ensures w.typeName == typeName && w.name == name
    ensures w.widgetType == GetWidgetType(typeName)
    ensures w.labelText == DefaultLabel(w.widgetType)
    ensures w.value == 0.0 && w.items == [] && w.selectedIndex == 0 && w.widgetState == Normal
    ensures w.parent == null && w.events == map[] && w.states == map[]
  {
    w := new Widget();
    w.typeName := typeName;
    w.widgetType := GetWidgetType(typeName);
    w.name := name;
    match w.widgetType {
      case Button => w.labelText := "Button";
      case Slider => w.labelText := "Slider";
      case _ =>
    }
  }

  /** The name an unnamed LIST widget gets from counter value `n`. */
  function ListName(n: nat): string
  {
    "list_widget_" + DecimalString(n)
  }

  /** Different counter values give different names, so no two unnamed lists share one. */
  lemma ListNamesDistinct(m: nat, n: nat)
    requires m != n
    ensures ListName(m) != ListName(n)
  {
    DecimalStringInjective(m, n);
    assert ListName(m)[12..] == DecimalString(m) && ListName(n)[12..] == DecimalString(n);
  }

  /** The function-static `listCounter` of GuiLayout::Render: one counter for the whole program,
      shared by every layout and never reset, so it is an object of its own that rendering is
      given rather than a field of a layout. */
  class ListCounter {
    var next: nat

    constructor ()
      ensures next == 0
    {
      next := 0;
    }
  }

  /** Two layouts, each with an unnamed LIST widget, rendered one after the other with the
      program's counter: the second list continues the count, so the two names differ. */
  method RenderTwoLayouts(a: GuiLayout, wa: Widget, b: GuiLayout, wb: Widget,
                          vars: map<string, string>, counter: ListCounter)
    requires wa != wb && wa.name == "" && wb.name == ""
    modifies wa`name, wa`items, wb`name, wb`items, counter`next
    ensures wa.name == ListName(old(counter.next)) && wb.name == ListName(old(counter.next) + 1)
    ensures wa.name != wb.name && counter.next == old(counter.next) + 2
  {
    a.RefreshListItems(wa, vars, counter);
    b.RefreshListItems(wb, vars, counter);
    ListNamesDistinct(old(counter.next), old(counter.next) + 1);
  }

  /** The layout: its type (the file name stem), title, file name and top-level widgets. */
  class GuiLayout {
    const layoutType: string
    var title: string
    var fileName: string
    var widgets: seq<Widget>

    ghost predicate Valid()
      reads this
    {
      forall w | w in widgets :: w.Valid()
    }

    /** The constructor loads "gui/layouts/<name>.yaml"; the widgets the loader builds from it are
        a parameter here. */
    constructor (name: string, loaded: seq<Widget>)
      requires forall w | w in loaded :: w.Valid()
      ensures Valid() && layoutType == name && widgets == loaded
      ensures title == "" && fileName == ""
    {
      layoutType, title, fileName, widgets := name, "", "", loaded;
    }

    /** GetWidget: the first top-level widget with that name, or null; children are not searched. */
    method GetWidget(name: string) returns (w: Widget?)
      ensures w == null <==> forall i | 0 <= i < |widgets| :: widgets[i].name != name
      ensures w != null ==> exists i | 0 <= i < |widgets| ::
        && widgets[i] == w && w.name == name
        && forall j | 0 <= j < i :: widgets[j].name != name
    {
      var i := 0;
      while i < |widgets|
        invariant 0 <= i <= |widgets|
        invariant forall j | 0 <= j < i :: widgets[j].name != name
      {
        if widgets[i].name == name {
          return widgets[i];
        }
        i := i + 1;
      }
      return null;
    }

    /** ResetWidgetState: the widget and all its descendants lose their items and selection;
        nothing else changes. Widgets already reset (`keep`) stay reset. */
    method ResetWidgetState(w: Widget?, ghost keep: set<Widget>)
      requires w != null ==> w.Valid()
      requires forall x | x in keep :: x.items == [] && x.selectedIndex == 0
      modifies if w == null then {} else w.Repr`items, if w == null then {} else w.Repr`selectedIndex
      ensures w != null ==> forall x | x in w.Repr :: x.items == [] && x.selectedIndex == 0
      ensures forall x | x in keep :: x.items == [] && x.selectedIndex == 0
      decreases if w == null then 0 else w.height + 1
    {
      if w == null {
        return;
      }
      w.items := [];
      w.selectedIndex := 0;
      for i := 0 to |w.children|
        invariant forall x | x in keep + {w} + Below(w.children[..i]) :: x.items == [] && x.selectedIndex == 0
      {
        ResetWidgetState(w.children[i], keep + {w} + Below(w.children[..i]));
        BelowSnoc(w.children, i);
      }
      assert w.children[..|w.children|] == w.children;
    }

    /** Reset: every widget of the layout, at any depth, loses its items and selection. */
    method Reset()
      requires Valid()
      modifies Below(widgets)`items, Below(widgets)`selectedIndex
      ensures forall x | x in Below(widgets) :: x.items == [] && x.selectedIndex == 0
    {
      for i := 0 to |widgets|
        invariant forall x | x in Below(widgets[..i]) :: x.items == [] && x.selectedIndex == 0
      {
        ResetWidgetState(widgets[i], Below(widgets[..i]));
        BelowSnoc(widgets, i);
      }
      assert widgets[..|widgets|] == widgets;
    }

    /** The data part of rendering a LIST widget: an unnamed widget is named "list_widget_<n>" from
        the counter, and a found source variable replaces the items by its tokens (the items are
        cleared first, so an empty source leaves none). Without a source the items stay. */
    method RefreshListItems(w: Widget, vars: map<string, string>, counter: ListCounter)
      modifies w`name, w`items, counter`next
      ensures old(w.name) == "" ==>
        w.name == ListName(old(counter.next)) && counter.next == old(counter.next) + 1
      ensures old(w.name) != "" ==> w.name == old(w.name) && counter.next == old(counter.next)
      ensures ListSource(w.listSourceVariable, w.name, vars).Some? ==>
        w.items == Tokens(vars[ListSource(w.listSourceVariable, w.name, vars).value])
      ensures ListSource(w.listSourceVariable, w.name, vars).None? ==> w.items == old(w.items)
    {
      if w.name == "" {
        w.name := ListName(counter.next);
        counter.next := counter.next + 1;
      }
      var source := ListSource(w.listSourceVariable, w.name, vars);
      if source.Some? {
        var tokens := TokenizeList(vars[source.value]);
        w.items := [];
        if tokens != [] {
          w.items := tokens;
        }
      }
    }

    /** RegisterWidgetEvents: every callback name the node or its descendants mention gets the
        default handler, unless a callback is already registered under it. */
    method RegisterWidgetEvents(registry: GuiCallbackRegistry, node: EventNode)
      modifies registry`callbacks
      ensures forall n :: n in registry.callbacks <==>
        n in old(registry.callbacks) || n in EventCallbackNames(node)
      ensures forall n | n in old(registry.callbacks) :: registry.callbacks[n] == old(registry.callbacks)[n]
      ensures forall n | n in registry.callbacks && n !in old(registry.callbacks) ::
        registry.callbacks[n] == DefaultHandler(n)
      decreases node
    {
      ghost var before := registry.callbacks;
      RegisterDefaults(registry, node.events);
      for i := 0 to |node.children|
        invariant forall n :: n in registry.callbacks <==>
          || n in before || n in EventNames(node.events)
          || exists j | 0 <= j < i :: n in EventCallbackNames(node.children[j])
        invariant forall n | n in before :: registry.callbacks[n] == before[n]
        invariant forall n | n in registry.callbacks && n !in before :: registry.callbacks[n] == DefaultHandler(n)
      {
        RegisterWidgetEvents(registry, node.children[i]);
      }
    }
  }

  /** The loop over one widget's events in RegisterWidgetEvents. */
  method RegisterDefaults(registry: GuiCallbackRegistry, events: seq<(string, string)>)
    modifies registry`callbacks
    ensures forall n :: n in registry.callbacks <==> n in old(registry.callbacks) || n in EventNames(events)
    ensures forall n | n in old(registry.callbacks) :: registry.callbacks[n] == old(registry.callbacks)[n]
    ensures forall n | n in registry.callbacks && n !in old(registry.callbacks) ::
      registry.callbacks[n] == DefaultHandler(n)
  {
    ghost var before := registry.callbacks;
    for i := 0 to |events|
      invariant forall n :: n in registry.callbacks <==> n in before || n in EventNames(events[..i])
      invariant forall n | n in before :: registry.callbacks[n] == before[n]
      invariant forall n | n in registry.callbacks && n !in before :: registry.callbacks[n] == DefaultHandler(n)
    {
      var callbackName := events[i].1;
      if !registry.IsRegistered(callbackName) {
        registry.Register(callbackName, DefaultHandler(callbackName));
      }
      assert events[..i + 1] == events[..i] + [events[i]];
    }
    assert events[..|events|] == events;
  }
}
