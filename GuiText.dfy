// The string work of the GUI: replacing variables in labels (std::string find/replace loops)
// and splitting a LIST widget's source variable into trimmed items (std::getline on ',').

module GuiText {
  import opened Base

  // ---------------------------------------------------------------------------------------
  // Finding and replacing

  /** t holds pat starting at index j. */
  predicate OccursAt(t: string, pat: string, j: int)
  {
    0 <= j && j + |pat| <= |t| && t[j..j + |pat|] == pat
  }

  ghost predicate Occurs(t: string, pat: string)
  {
    exists j :: OccursAt(t, pat, j)
  }

  /** The start of the first occurrence of a non-empty pattern (std::string::find from 0). */
  function FirstOcc(t: string, pat: string): (r: Option<nat>)
    requires |pat| > 0
    ensures r.Some? ==> r.value + |pat| <= |t|
    decreases |t|
  {
    if |t| < |pat| then None
    else if t[..|pat|] == pat then Some(0)
    else
      var rest := FirstOcc(t[1..], pat);
      if rest.None? then None
      else
        Some(rest.value + 1)
  }

  lemma TailSlice<T>(t: seq<T>, j: nat, n: nat)
    requires 1 <= j && j + n <= |t|
    ensures t[1..][j - 1..j - 1 + n] == t[j..j + n]
  {
  }

  /** An occurrence after the first character is an occurrence in the rest. */
  lemma OccursShift(t: string, pat: string, j: int)
    requires 1 <= j && t != []
    ensures OccursAt(t, pat, j) == OccursAt(t[1..], pat, j - 1)
  {
    if j + |pat| <= |t| {
      TailSlice(t, j, |pat|);
    }
  }

  /** What FirstOcc finds is an occurrence. */
  lemma {:induction false} FirstOccMatches(t: string, pat: string)
    requires |pat| > 0 && FirstOcc(t, pat).Some?
    ensures OccursAt(t, pat, FirstOcc(t, pat).value)
    decreases |t|
  {
    var i := FirstOcc(t, pat).value;
    if i > 0 {
      FirstOccMatches(t[1..], pat);
      OccursShift(t, pat, i);
    }
  }

  /** FirstOcc finds the leftmost occurrence: none starts before it. */
  lemma {:induction false} FirstOccIsFirst(t: string, pat: string, j: int)
    requires |pat| > 0 && FirstOcc(t, pat).Some? && 0 <= j < FirstOcc(t, pat).value
    ensures !OccursAt(t, pat, j)
    decreases |t|
  {
    if j == 0 {
      assert t[..|pat|] != pat;
    } else {
      OccursShift(t, pat, j);
      FirstOccIsFirst(t[1..], pat, j - 1);
    }
  }

  /** FirstOcc finds nothing only when there is nothing to find. */
  lemma {:induction false} FirstOccNone(t: string, pat: string)
    requires |pat| > 0
    ensures FirstOcc(t, pat).None? <==> !Occurs(t, pat)
    decreases |t|
  {
    if FirstOcc(t, pat).Some? {
      FirstOccMatches(t, pat);
    } else if |t| >= |pat| {
      assert t[..|pat|] != pat;
      FirstOccNone(t[1..], pat);
      forall j | OccursAt(t, pat, j)
        ensures OccursAt(t[1..], pat, j - 1)
      {
        OccursShift(t, pat, j);
      }
    }
  }

  /** std::string::find(pat, from) for a non-empty pattern; None stands for npos. */
  function Find(s: string, pat: string, from: nat): (r: Option<nat>)
    requires |pat| > 0
    ensures r.Some? ==> from <= r.value && from <= |s| && FirstOcc(s[from..], pat) == Some(r.value - from)
    ensures r.None? ==> from > |s| || FirstOcc(s[from..], pat).None?
  {
    if from > |s| then None
    else
      var first := FirstOcc(s[from..], pat);
      if first.None? then None else Some(from + first.value)
  }

  /** Replaces every occurrence of pat, left to right, without looking again inside an inserted
      value: the matches are the non-overlapping ones a left-to-right scan finds. */
  function ReplaceAll(t: string, pat: string, v: string): string
    requires |pat| > 0
    decreases |t|
  {
    var first := FirstOcc(t, pat);
    if first.None? then t
    else t[..first.value] + v + ReplaceAll(t[first.value + |pat|..], pat, v)
  }

  /** A string without the pattern is left alone. */
  lemma ReplaceAbsent(t: string, pat: string, v: string)
    requires |pat| > 0 && !Occurs(t, pat)
    ensures ReplaceAll(t, pat, v) == t
  {
    FirstOccNone(t, pat);
  }

  /** Replacing a pattern by itself changes nothing. */
  lemma {:induction false} ReplaceSelf(t: string, pat: string)
    requires |pat| > 0
    ensures ReplaceAll(t, pat, pat) == t
    decreases |t|
  {
    var first := FirstOcc(t, pat);
    if first.Some? {
      var i := first.value;
      FirstOccMatches(t, pat);
      ReplaceSelf(t[i + |pat|..], pat);
      SplitAround(t, i, |pat|);
    }
  }

  lemma SplitAround<T>(t: seq<T>, i: nat, n: nat)
    requires i + n <= |t|
    ensures t[..i] + t[i..i + n] + t[i + n..] == t
  {
  }

  lemma ReplaceUnfold(t: string, pat: string, v: string, i: nat)
    requires |pat| > 0 && FirstOcc(t, pat) == Some(i)
    ensures i + |pat| <= |t|
    ensures ReplaceAll(t, pat, v) == t[..i] + v + ReplaceAll(t[i + |pat|..], pat, v)
  {
    var first := FirstOcc(t, pat);
    assert first.value == i;
    assert ReplaceAll(t, pat, v) == t[..first.value] + v + ReplaceAll(t[first.value + |pat|..], pat, v);
  }

  /** One round of the replacement loop: the first match at or after `start` is replaced and
      scanning resumes just after the inserted value. */
  lemma ReplaceStep(o: string, start: nat, p: nat, pat: string, v: string)
    requires |pat| > 0 && start <= |o|
    requires Find(o, pat, start) == Some(p)
    ensures p + |pat| <= |o|
    ensures o[..start] + ReplaceAll(o[start..], pat, v)
         == o[..p] + v + ReplaceAll(o[p + |pat|..], pat, v)
  {
    var x, d := o[start..], p - start;
    ReplaceUnfold(x, pat, v, d);
    SuffixSlice(o, start, d, |pat|);
    var r := ReplaceAll(o[p + |pat|..], pat, v);
    assert ReplaceAll(x, pat, v) == x[..d] + v + r;
    Regroup(o, start, p, v, r);
  }

  /** A suffix of a suffix is a suffix of the whole. */
  lemma SuffixSlice<T>(o: seq<T>, start: nat, d: nat, n: nat)
    requires start + d + n <= |o|
    ensures o[start..][d + n..] == o[start + d + n..]
  {
  }

  /** Putting the text before `start` back in front of the rewritten suffix. */
  lemma Regroup<T>(o: seq<T>, start: nat, p: nat, v: seq<T>, r: seq<T>)
    requires start <= p <= |o|
    ensures o[..start] + (o[start..][..p - start] + v + r) == o[..p] + v + r
  {
    assert o[start..][..p - start] == o[start..p];
    assert o[..start] + o[start..p] == o[..p];
  }

  /** The replacement loop of SubstituteVariables: find, replace, and search again after the value. */
  method ReplaceLoop(s: string, pat: string, v: string) returns (output: string)
    requires |pat| > 0
    ensures output == ReplaceAll(s, pat, v)
  {
    output := s;
    var start: nat := 0;
    var pos := Find(output, pat, 0);
    while pos.Some?
      invariant start <= |output|
      invariant pos == Find(output, pat, start)
      invariant output[..start] + ReplaceAll(output[start..], pat, v) == ReplaceAll(s, pat, v)
      decreases |output| - start
    {
      var p := pos.value;
      ReplaceStep(output, start, p, pat, v);
      var before, tail := output[..p] + v, output[p + |pat|..];
      output := before + tail;
      start := p + |v|;
      assert output[..start] == before && output[start..] == tail;
      pos := Find(output, pat, start);
    }
    assert output[..start] + output[start..] == output;
  }

  /** std::string::find(pat, from) with the empty pattern allowed: "" is found at `from` itself
      whenever `from` is not past the end. */
  function FindAny(s: string, pat: string, from: nat): (r: Option<nat>)
    ensures |pat| == 0 ==> (r.Some? <==> from <= |s|)
    ensures |pat| == 0 && r.Some? ==> r.value == from
  {
    if |pat| == 0 then (if from <= |s| then Some(from) else None) else Find(s, pat, from)
  }

  /** The bare-key loop of SubstituteVariables as written, for the empty key, run for at most `n`
      rounds from the text `s` and the position `pos`: each round replaces the empty match at the
      position with the value and searches again just after the inserted value. */
  function EmptyKeyRounds(s: string, pos: Option<nat>, value: string, n: nat): (r: (string, Option<nat>))
    requires pos.Some? ==> pos.value <= |s|
    decreases n
  {
    if n == 0 || pos.None? then (s, pos)
    else
      var p := pos.value;
      var t := s[..p] + value + s[p..];
      EmptyKeyRounds(t, FindAny(t, "", p + |value|), value, n - 1)
  }

  /** As written, an empty key makes the bare-key loop run forever: after any number of rounds the
      loop's search has still found a position, and the text has grown by the value once per
      round. */
  lemma {:induction false} EmptyKeyLoopNeverEnds(s: string, value: string, p: nat, n: nat)
    requires p <= |s|
    ensures EmptyKeyRounds(s, Some(p), value, n).1.Some?
    ensures |EmptyKeyRounds(s, Some(p), value, n).0| == |s| + n * |value|
    decreases n
  {
    if n > 0 {
      var t := s[..p] + value + s[p..];
      assert FindAny(t, "", p + |value|) == Some(p + |value|);
      EmptyKeyLoopNeverEnds(t, value, p + |value|, n - 1);
      assert (n - 1) * |value| + |value| == n * |value|;
    }
  }

  // ---------------------------------------------------------------------------------------
  // Variable substitution

  /** "${" + key + "}". */
  function Braced(key: string): (b: string)
    ensures |b| == |key| + 3 && b[2..2 + |key|] == key
  {
    "${" + key + "}"
  }

  /** One variable's substitution: first its braced form, then the bare key. */
  function SubstituteOne(s: string, key: string, value: string): string
    requires |key| > 0
  {
    ReplaceAll(ReplaceAll(s, Braced(key), value), key, value)
  }

  /** The substitution with the variables taken in the given order (the hash map's iteration
      order, which the program does not choose). */
  function SubstituteInOrder(s: string, vars: map<string, string>, order: seq<string>): string
    requires forall k | k in order :: k in vars && |k| > 0
    decreases |order|
  {
    if order == [] then s
    else
      var key := order[|order| - 1];
      SubstituteOne(SubstituteInOrder(s, vars, order[..|order| - 1]), key, vars[key])
  }

  /** Without variables the input comes back as it is. */
  lemma SubstituteWithoutVariables(s: string, vars: map<string, string>, order: seq<string>)
    requires vars == map[] && forall k | k in order :: k in vars
    ensures SubstituteInOrder(s, vars, order) == s
  {
    SubstituteNoKeys(s, vars, order);
  }

  lemma KeyInBraced(s: string, key: string, j: int)
    requires OccursAt(s, Braced(key), j)
    ensures OccursAt(s, key, j + 2)
  {
    assert s[j + 2..j + 2 + |key|] == s[j..j + |key| + 3][2..2 + |key|];
  }

  /** A key that does not occur does not occur braced either. */
  lemma BracedNeedsKey(s: string, key: string)
    requires !Occurs(s, key)
    ensures !Occurs(s, Braced(key))
  {
    forall j | OccursAt(s, Braced(key), j)
      ensures OccursAt(s, key, j + 2)
    {
      KeyInBraced(s, key, j);
    }
  }

  /** An input in which no variable's key occurs comes back unchanged, whatever the order. */
  lemma {:induction false} SubstituteNoKeys(s: string, vars: map<string, string>, order: seq<string>)
    requires forall k | k in order :: k in vars && |k| > 0
    requires forall k | k in vars && |k| > 0 :: !Occurs(s, k)
    ensures SubstituteInOrder(s, vars, order) == s
    decreases |order|
  {
    if order != [] {
      var key := order[|order| - 1];
      SubstituteNoKeys(s, vars, order[..|order| - 1]);
      BracedNeedsKey(s, key);
      ReplaceAbsent(s, Braced(key), vars[key]);
      ReplaceAbsent(s, key, vars[key]);
    }
  }

  // ---------------------------------------------------------------------------------------
  // LIST source tokenising

  /** The characters the tokeniser trims: " \t\n\r\f\v". */
  predicate IsSpace(c: char)
  {
    c == ' ' || c == '\t' || c == '\n' || c == '\r' || c == '\U{0C}' || c == '\U{0B}'
  }

  /** What the tokeniser keeps: non-empty, no surrounding whitespace, no comma. */
  predicate IsItem(x: string)
  {
    x != [] && !IsSpace(x[0]) && !IsSpace(x[|x| - 1]) && ',' !in x
  }

  /** Erasing up to the first non-whitespace character (everything, when there is none). */
  function TrimLeft(t: string): (r: string)
    ensures |r| <= |t|
    ensures r == [] || !IsSpace(r[0])
    ensures ',' !in t ==> ',' !in r
    decreases |t|
  {
    if t != [] && IsSpace(t[0]) then TrimLeft(t[1..]) else t
  }

  /** Erasing after the last non-whitespace character. */
  function TrimRight(t: string): (r: string)
    ensures |r| <= |t|
    ensures r == [] || (!IsSpace(r[|r| - 1]) && r[0] == t[0])
    ensures ',' !in t ==> ',' !in r
    decreases |t|
  {
    if t != [] && IsSpace(t[|t| - 1]) then TrimRight(t[..|t| - 1]) else t
  }

  function Trim(t: string): (r: string)
    ensures r == [] || (!IsSpace(r[0]) && !IsSpace(r[|r| - 1]))
    ensures ',' !in t ==> ',' !in r
  {
    TrimRight(TrimLeft(t))
  }

  /** A string that starts and ends with something other than whitespace is its own trim. */
  lemma TrimTrimmed(t: string)
    requires t != [] && !IsSpace(t[0]) && !IsSpace(t[|t| - 1])
    ensures Trim(t) == t
  {
  }

  /** The first ',' of s. */
  function IndexOfComma(s: string): (r: Option<nat>)
    ensures r.Some? ==> r.value < |s| && s[r.value] == ',' && ',' !in s[..r.value]
    ensures r.None? ==> ',' !in s
    decreases |s|
  {
    if s == [] then None
    else if s[0] == ',' then Some(0)
    else
      var rest := IndexOfComma(s[1..]);
      if rest.None? then None
      else
        assert s[..rest.value + 1] == [s[0]] + s[1..][..rest.value];
        Some(rest.value + 1)
  }

  /** What one std::getline(stream, token, ',') reads: the text before the first comma. */
  function Piece(s: string): (p: string)
    ensures ',' !in p
  {
    var cut := IndexOfComma(s);
    if cut.None? then s else s[..cut.value]
  }

  /** What is left in the stream after that getline: the text after the first comma. */
  function Rest(s: string): (r: string)
    ensures |r| < |s| || s == []
  {
    var cut := IndexOfComma(s);
    if cut.None? then [] else s[cut.value + 1..]
  }

  /** A trimmed field is kept when it is not empty. */
  function Keep(token: string): seq<string>
  {
    if token == [] then [] else [token]
  }

  /** The items a list source gives: its comma-separated fields, trimmed, empty ones dropped. */
  function Tokens(s: string): seq<string>
    decreases |s|
  {
    if s == [] then [] else Keep(Trim(Piece(s))) + Tokens(Rest(s))
  }

  /** Every item is non-empty, starts and ends with a non-whitespace character and has no comma. */
  lemma {:induction false} TokensShape(s: string)
    ensures forall x | x in Tokens(s) :: IsItem(x)
    decreases |s|
  {
    if s != [] {
      TokensShape(Rest(s));
      var t := Trim(Piece(s));
      assert Tokens(s) == Keep(t) + Tokens(Rest(s));
      assert t != [] ==> IsItem(t);
    }
  }

  /** The fields joined by commas, as a list source holds them. */
  function JoinCommas(items: seq<string>): string
  {
    if items == [] then []
    else if |items| == 1 then items[0]
    else items[0] + "," + JoinCommas(items[1..])
  }

  /** The first comma of a + "," + rest is the one after a, when a has none. */
  lemma {:induction false} CommaAfter(a: string, rest: string)
    requires ',' !in a
    ensures IndexOfComma(a + "," + rest) == Some(|a|)
    decreases |a|
  {
    var s := a + "," + rest;
    if a != [] {
      assert s[1..] == a[1..] + "," + rest;
      CommaAfter(a[1..], rest);
    }
  }

  /** Tokenising undoes joining, for items that are non-empty, trimmed and comma-free. */
  lemma {:induction false} TokensJoin(items: seq<string>)
    requires forall x | x in items :: IsItem(x)
    ensures Tokens(JoinCommas(items)) == items
    decreases |items|
  {
    if items != [] {
      var a := items[0];
      assert a in items;
      TrimTrimmed(a);
      if |items| == 1 {
        assert Piece(a) == a && Rest(a) == [];
      } else {
        var rest := JoinCommas(items[1..]);
        CommaAfter(a, rest);
        var s := a + "," + rest;
        assert s[..|a|] == a && s[|a| + 1..] == rest;
        assert Piece(s) == a && Rest(s) == rest;
        TokensJoin(items[1..]);
      }
    }
  }

  /** One getline round: the field read, trimmed and kept if non-empty, moves from the stream
      to the items. */
  lemma TokenStep(s: string, token: string, items: seq<string>)
    requires s != [] && token == TrimRight(TrimLeft(Piece(s)))
    ensures (if token != [] then items + [token] else items) + Tokens(Rest(s)) == items + Tokens(s)
  {
    var t := Tokens(Rest(s));
    assert Tokens(s) == Keep(token) + t;
    if token != [] {
      assert items + ([token] + t) == items + [token] + t;
    } else {
      assert [] + t == t;
    }
  }

  /** The getline loop of the LIST branch of Render: each field is trimmed and kept if non-empty. */
  method TokenizeList(content: string) returns (items: seq<string>)
    ensures items == Tokens(content)
  {
    items := [];
    var rest := content;
    while rest != []
      invariant items + Tokens(rest) == Tokens(content)
      decreases |rest|
    {
      var token := Piece(rest);
      token := TrimLeft(token);
      token := TrimRight(token);
      TokenStep(rest, token, items);
      rest := Rest(rest);
      if token != [] {
        items := items + [token];
      }
    }
  }
}
