/** Option dispatch of the model base class (setOptions): which setter each
    option key selects, which options are applied, and what running the
    selected setters does to the model's identity. */
module Options {
  import opened Values
  import Naming
  import Identity

  /** One option of the options array: its key and its value. */
  type OptionEntry = (string, Value)

  /** One setter invocation, $this->$method($value). */
  datatype SetterCall = SetterCall(setter: string, arg: Value)

  /** The setter an option key selects: "set" followed by ucfirst(key). */
  function SetterName(key: string): (m: string)
    ensures |m| == |key| + 3 && m[..3] == "set"
    ensures m[3..] == Naming.UcFirst(key)
  {
    "set" + Naming.UcFirst(key)
  }

  /** Two keys select the same setter exactly when they agree after
      ucfirst: "identity" and "Identity" meet, "IDENTITY" does not. */
  lemma SetterNameSame(a: string, b: string)
    ensures SetterName(a) == SetterName(b) <==> Naming.UcFirst(a) == Naming.UcFirst(b)
  {
    if SetterName(a) == SetterName(b) {
      assert SetterName(a)[3..] == SetterName(b)[3..];
    }
  }

  /** The setter of the base class that setOptions reaches for the key
      "identity". */
  const SetIdentityMethod: string := "setIdentity"

  /** The base class's other public setter, reached by the key "options". */
  const SetOptionsMethod: string := "setOptions"

  /** Exactly the keys "identity" and "Identity" select setIdentity. */
  lemma SetIdentityKeys(key: string)
    ensures SetterName(key) == SetIdentityMethod <==> key == "identity" || key == "Identity"
  {
    var u := Naming.UcFirst(key);
    if SetterName(key) == SetIdentityMethod {
      assert u == SetIdentityMethod[3..] == "Identity";
      assert key[1..] == u[1..];
      assert key[0] == 'i' || key[0] == 'I';
      assert key == [key[0]] + key[1..];
    }
  }

  /** The call one option produces: its setter with its value when the class
      has that setter, nothing otherwise. */
  function Emit(entry: OptionEntry, methods: set<string>): (calls: seq<SetterCall>)
    ensures |calls| <= 1
    ensures |calls| == 1 <==> SetterName(entry.0) in methods
    ensures |calls| == 1 ==> calls[0] == SetterCall(SetterName(entry.0), entry.1)
  {
    var m := SetterName(entry.0);
    if m in methods then [SetterCall(m, entry.1)] else []
  }

  /** The setter calls setOptions makes, in option order: one for each option
      whose setter is among the class's methods, none for the others. */
  function Dispatch(options: seq<OptionEntry>, methods: set<string>): (calls: seq<SetterCall>)
    ensures |calls| <= |options|
  {
    if |options| == 0 then []
    else Dispatch(options[..|options| - 1], methods) + Emit(options[|options| - 1], methods)
  }

  /** One more option adds exactly the call it produces. */
  lemma DispatchSnoc(init: seq<OptionEntry>, last: OptionEntry, methods: set<string>)
    ensures Dispatch(init + [last], methods) == Dispatch(init, methods) + Emit(last, methods)
  {
    assert (init + [last])[..|init|] == init;
  }

  /** Splitting off the last element of a non-empty sequence. */
  lemma SplitLast<T>(a: seq<T>, b: seq<T>)
    requires |b| > 0
    ensures b == b[..|b| - 1] + [b[|b| - 1]]
    ensures a + b == (a + b[..|b| - 1]) + [b[|b| - 1]]
  {
  }

  /** Appending to a concatenation. */
  lemma ConcatAssoc<T>(a: seq<T>, b: seq<T>, c: seq<T>)
    ensures a + (b + c) == (a + b) + c
  {
  }

  /** The algebra behind both append lemmas below, kept apart from the
      recursive definitions so the solver sees only sequences. */
  lemma Regroup<T>(ab: seq<T>, ab': seq<T>, a: seq<T>, b: seq<T>, b': seq<T>, e: seq<T>)
    requires ab == ab' + e && ab' == a + b' && b == b' + e
    ensures ab == a + b
  {
  }

  /** Dispatch respects option order: the calls for a + b are those for a
      followed by those for b. */
  lemma {:induction false} DispatchAppend(a: seq<OptionEntry>, b: seq<OptionEntry>, methods: set<string>)
    ensures Dispatch(a + b, methods) == Dispatch(a, methods) + Dispatch(b, methods)
  {
    if |b| == 0 {
      assert a + b == a;
    } else {
      var b', x := b[..|b| - 1], b[|b| - 1];
      DispatchAppend(a, b', methods);
      SplitLast(a, b);
      DispatchSnoc(b', x, methods);
      DispatchSnoc(a + b', x, methods);
      Regroup(Dispatch(a + b, methods), Dispatch(a + b', methods), Dispatch(a, methods),
              Dispatch(b, methods), Dispatch(b', methods), Emit(x, methods));
    }
  }

  /** A call is made exactly when some option's setter exists, and then with
      that option's value. */
  lemma {:induction false} DispatchMembership(options: seq<OptionEntry>, methods: set<string>, c: SetterCall)
    ensures c in Dispatch(options, methods) <==>
      c.setter in methods && exists e :: e in options && c == SetterCall(SetterName(e.0), e.1)
  {
    if |options| > 0 {
      var n := |options| - 1;
      var init, last := options[..n], options[n];
      DispatchMembership(init, methods, c);
      assert options == init + [last];
      assert forall e :: e in options <==> e in init || e == last;
    }
  }

  /** Options whose setters all exist are applied one by one, each exactly
      once and in order. */
  lemma {:induction false} DispatchAllKnown(options: seq<OptionEntry>, methods: set<string>)
    requires forall i :: 0 <= i < |options| ==> SetterName(options[i].0) in methods
    ensures |Dispatch(options, methods)| == |options|
    ensures forall i :: 0 <= i < |options| ==>
      Dispatch(options, methods)[i] == SetterCall(SetterName(options[i].0), options[i].1)
  {
    if |options| > 0 {
      var init, x := options[..|options| - 1], options[|options| - 1];
      DispatchAllKnown(init, methods);
      SplitLast([], options);
      DispatchSnoc(init, x, methods);
    }
  }

  /** Options none of whose setters exist are skipped without effect. */
  lemma {:induction false} DispatchAllUnknown(options: seq<OptionEntry>, methods: set<string>)
    requires forall i :: 0 <= i < |options| ==> SetterName(options[i].0) !in methods
    ensures Dispatch(options, methods) == []
  {
    if |options| > 0 {
      DispatchAllUnknown(options[..|options| - 1], methods);
    }
  }

  /** Where a run of setter calls has got to: the calls made so far, the
      identity cached so far, and the exception that stopped it, if any. */
  datatype Progress = Progress(made: seq<SetterCall>, identity: Option<Role>, error: Option<Error>)

  /** A setIdentity call whose value setIdentity accepts. */
  predicate Accepted(c: SetterCall) {
    c.setter == SetIdentityMethod && Identity.ToRole(c.arg).Ok?
  }

  /** A setIdentity call whose value setIdentity rejects. */
  predicate Rejected(c: SetterCall) {
    c.setter == SetIdentityMethod && Identity.ToRole(c.arg).Err?
  }

  /** One setter call. setIdentity sets or rejects the identity; any other
      setter leaves it alone. A rejected identity throws, ending the run. */
  function Step(p: Progress, c: SetterCall): (q: Progress)
    ensures q.made == p.made + [c]
    ensures q.error.Some? <==> Rejected(c)
    ensures q.error.Some? ==> q.error == Some(InvalidIdentity)
    ensures Accepted(c) ==> q.identity == Some(Identity.ToRole(c.arg).value)
    ensures !Accepted(c) ==> q.identity == p.identity
  {
    var made := p.made + [c];
    if c.setter != SetIdentityMethod then Progress(made, p.identity, None)
    else
      var r := Identity.ToRole(c.arg);
      if r.Ok? then Progress(made, Some(r.value), None) else Progress(made, p.identity, Some(r.error))
  }

  /** The setter calls run one after the other from the given identity,
      stopping at the first exception. */
  function Run(identity: Option<Role>, calls: seq<SetterCall>): (p: Progress)
    ensures |p.made| <= |calls|
    ensures p.made == calls[..|p.made|]
    ensures p.error.None? ==> p.made == calls
  {
    if |calls| == 0 then Progress([], identity, None)
    else
      var init := calls[..|calls| - 1];
      var before := Run(identity, init);
      assert init[..|before.made|] == calls[..|before.made|];
      if before.error.Some? then before else Step(before, calls[|calls| - 1])
  }

  /** One more call: nothing happens after an exception, otherwise the call
      is run. */
  lemma RunSnoc(identity: Option<Role>, calls: seq<SetterCall>, c: SetterCall)
    ensures var before := Run(identity, calls);
      Run(identity, calls + [c]) == if before.error.Some? then before else Step(before, c)
  {
    assert (calls + [c])[..|calls|] == calls;
  }

  /** Once a call has raised, the calls after it are never made. */
  lemma {:induction false} RunAfterError(identity: Option<Role>, a: seq<SetterCall>, b: seq<SetterCall>)
    requires Run(identity, a).error.Some?
    ensures Run(identity, a + b) == Run(identity, a)
  {
    if |b| == 0 {
      assert a + b == a;
    } else {
      var b', c := b[..|b| - 1], b[|b| - 1];
      RunAfterError(identity, a, b');
      SplitLast(a, b);
      RunSnoc(identity, a + b', c);
    }
  }

  /** One round of setOptions' loop: the option's setter is run when the
      class has it, and the option is skipped otherwise. */
  function Apply(p: Progress, entry: OptionEntry, methods: set<string>): (q: Progress)
    ensures q.made == p.made + Emit(entry, methods)
    ensures SetterName(entry.0) !in methods ==> q == p
  {
    var m := SetterName(entry.0);
    if m in methods then Step(p, SetterCall(m, entry.1)) else p
  }

  /** The loop, one option further, is one more round. */
  lemma RunDispatchStep(identity: Option<Role>, options: seq<OptionEntry>, i: nat, methods: set<string>)
    requires i < |options|
    requires Run(identity, Dispatch(options[..i], methods)).error.None?
    ensures Run(identity, Dispatch(options[..i + 1], methods)) ==
      Apply(Run(identity, Dispatch(options[..i], methods)), options[i], methods)
  {
    var calls := Dispatch(options[..i], methods);
    SplitLast([], options[..i + 1]);
    assert options[..i + 1][..i] == options[..i];
    DispatchSnoc(options[..i], options[i], methods);
    var m := SetterName(options[i].0);
    if m in methods {
      RunSnoc(identity, calls, SetterCall(m, options[i].1));
    } else {
      assert calls + [] == calls;
    }
  }

  /** setOptions' loop before its first round and after its last. */
  lemma RunDispatchBounds(identity: Option<Role>, options: seq<OptionEntry>, methods: set<string>)
    ensures Run(identity, Dispatch(options[..0], methods)) == Progress([], identity, None)
    ensures options[..|options|] == options
  {
    assert options[..0] == [];
  }

  /** setOptions' early exit: once the first k options have raised, running
      the calls of all options gives the same outcome. */
  lemma RunStopsAtError(identity: Option<Role>, options: seq<OptionEntry>, k: nat, methods: set<string>)
    requires k <= |options|
    requires Run(identity, Dispatch(options[..k], methods)).error.Some?
    ensures Run(identity, Dispatch(options, methods)) == Run(identity, Dispatch(options[..k], methods))
  {
    var front, back := options[..k], options[k..];
    assert front + back == options;
    DispatchAppend(front, back, methods);
    RunAfterError(identity, Dispatch(front, methods), Dispatch(back, methods));
  }

  /** A run makes the requested calls in order, up to and including the
      first setIdentity call whose value is rejected, and stops there with
      "Invalid identity provided"; without such a call it makes them all. */
  lemma {:induction false} RunCompletesOrStopsAtBadIdentity(identity: Option<Role>, calls: seq<SetterCall>)
    ensures var p := Run(identity, calls);
      && p.made == calls[..|p.made|]
      && (forall j :: 0 <= j < |p.made| - 1 ==> !Rejected(p.made[j]))
      && (p.error.None? ==> p.made == calls && forall j :: 0 <= j < |calls| ==> !Rejected(calls[j]))
      && (p.error.Some? ==>
            && |p.made| > 0
            && Rejected(p.made[|p.made| - 1])
            && p.error == Some(InvalidIdentity))
  {
    if |calls| > 0 {
      var init, c := calls[..|calls| - 1], calls[|calls| - 1];
      RunCompletesOrStopsAtBadIdentity(identity, init);
      var before := Run(identity, init);
      if before.error.None? {
        var p := Run(identity, calls);
        assert p.made == before.made + [c];
        forall j | 0 <= j < |p.made| - 1 ensures !Rejected(p.made[j]) {
          assert p.made[j] == init[j];
        }
      }
    }
  }

  /** Setters other than setIdentity never change the identity and never
      raise. */
  lemma {:induction false} RunWithoutSetIdentity(identity: Option<Role>, calls: seq<SetterCall>)
    requires forall i :: 0 <= i < |calls| ==> calls[i].setter != SetIdentityMethod
    ensures Run(identity, calls) == Progress(calls, identity, None)
  {
    if |calls| > 0 {
      RunWithoutSetIdentity(identity, calls[..|calls| - 1]);
      assert calls[..|calls| - 1] + [calls[|calls| - 1]] == calls;
    }
  }

  /** The identity after a run is the role of the last accepted setIdentity
      call it made, or the identity it started with when there was none. */
  lemma {:induction false} RunIdentityOrigin(identity: Option<Role>, calls: seq<SetterCall>)
    ensures var p := Run(identity, calls);
      && ((forall i :: 0 <= i < |p.made| ==> !Accepted(p.made[i])) ==> p.identity == identity)
      && (forall i ::
            (0 <= i < |p.made| && Accepted(p.made[i]) && forall j :: i < j < |p.made| ==> !Accepted(p.made[j]))
            ==> p.identity == Some(Identity.ToRole(p.made[i].arg).value))
  {
    if |calls| > 0 {
      var init, c := calls[..|calls| - 1], calls[|calls| - 1];
      RunIdentityOrigin(identity, init);
      var before := Run(identity, init);
      if before.error.None? {
        var p := Run(identity, calls);
        var n := |before.made|;
        assert p.made == before.made + [c];
        assert forall i :: 0 <= i < n ==> p.made[i] == before.made[i];
        if !Accepted(c) {
          assert p.identity == before.identity;
          forall i | 0 <= i < |p.made| && Accepted(p.made[i]) &&
                     (forall j :: i < j < |p.made| ==> !Accepted(p.made[j]))
            ensures p.identity == Some(Identity.ToRole(p.made[i].arg).value)
          {
            assert i < n;
            assert forall j :: i < j < n ==> !Accepted(before.made[j]);
          }
        } else {
          forall i | 0 <= i < |p.made| && Accepted(p.made[i]) &&
                     (forall j :: i < j < |p.made| ==> !Accepted(p.made[j]))
            ensures i == n
          {
          }
        }
      }
    }
  }

  /** In every model class, which always has setIdentity, the option
      "identity" is handed to setIdentity and has its effect. */
  lemma IdentityOption(identity: Option<Role>, v: Value, methods: set<string>)
    requires SetIdentityMethod in methods
    ensures Run(identity, Dispatch([("identity", v)], methods)) ==
      Step(Progress([], identity, None), SetterCall(SetIdentityMethod, v))
  {
    SetIdentityKeys("identity");
    DispatchSnoc([], ("identity", v), methods);
    RunSnoc(identity, [], SetterCall(SetIdentityMethod, v));
  }
}
