// The GUI's callback registry: a map from action names to callbacks. The C++ singleton
// (Instance) becomes one object that its users receive.

module GuiCallbacks {

  /** A std::function<void(const std::string&)>. The program's own handlers are told apart by an
      identifier. RegisterWidgetEvents installs the default handler, which only logs its name. */
  datatype Callback = DefaultHandler(callbackName: string) | Handler(id: nat)

  /** One call of a callback with its parameter. What the callback then does is outside the model. */
  datatype Invocation = Invocation(callback: Callback, param: string)

  class GuiCallbackRegistry {
    var callbacks: map<string, Callback>
    /** Every callback Execute has run, in order. */
    var invoked: seq<Invocation>

    constructor ()
      ensures callbacks == map[] && invoked == []
    {
      callbacks, invoked := map[], [];
    }

    /** Register: the callback is stored under its name, replacing any earlier one. */
    method Register(name: string, cb: Callback)
      modifies this`callbacks
      ensures name in callbacks && callbacks[name] == cb
      ensures forall n | n != name :: (n in callbacks <==> n in old(callbacks))
      ensures forall n | n != name && n in callbacks :: callbacks[n] == old(callbacks)[n]
    {
      callbacks := callbacks[name := cb];
    }

    /** Execute: a registered name has its callback run once with the parameter, and the answer is true.
        An unknown name runs nothing, and the answer is false. */
    method Execute(name: string, param: string := "") returns (found: bool)
      modifies this`invoked
      ensures found <==> name in callbacks
      ensures found ==> invoked == old(invoked) + [Invocation(callbacks[name], param)]
      ensures !found ==> invoked == old(invoked)
    {
      found := name in callbacks;
      if found {
        invoked := invoked + [Invocation(callbacks[name], param)];
      }
    }

    function IsRegistered(name: string): (b: bool)
      reads this
      ensures b <==> name in callbacks
    {
      name in callbacks
    }
  }
}
