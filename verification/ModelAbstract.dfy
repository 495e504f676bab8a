/** SF_Model_Abstract: the base class of the storefront's domain models. It
    applies an options array through the model's own setters, builds and
    caches resources and forms by name, and resolves the identity of the
    caller for access checks. */
module ModelAbstract {
  import opened Values
  import opened Naming
  import opened Identity
  import opened Options

  /** A resource or form built by `new $class(...)`. Forms are built with a
      back-reference to the model that owns them; resources with none. */
  class Collaborator {
    const className: string
    const model: Model?

    constructor (className: string, model: Model?)
      ensures this.className == className && this.model == model
    {
      this.className := className;
      this.model := model;
    }
  }

  class Model {
    /** get_class($this): the concrete model's class name. */
    const className: string
    /** get_class_methods($this): the methods of the concrete model, which
        always include the base class's public setIdentity and setOptions. */
    const declaredMethods: set<string>
    /** The class names that `new $class` can instantiate. */
    const loadable: set<string>

    /** $_classMethods: filled from declaredMethods on first use. */
    var classMethods: Option<set<string>>
    /** $_resources and $_forms: logical name to the object built for it. */
    var resources: map<string, Collaborator>
    var forms: map<string, Collaborator>
    /** $_identity: the resolved role, if any. */
    var identity: Option<Role>
    /** The setters setOptions has invoked, in order. */
    var setterCalls: seq<SetterCall>

    /** The logical names for which a resource, or a form, was built, in the
        order of construction. */
    ghost var resourceLog: seq<string>
    ghost var formLog: seq<string>

    /** The object invariant: the method cache holds what reflection gives,
        and the registries are well formed. */
    ghost predicate Valid()
      reads this`classMethods, this`resources, this`forms, this`resourceLog, this`formLog
    {
      MethodsCached() && Registries()
    }

    /** Once filled, the method cache is what get_class_methods gives. */
    ghost predicate MethodsCached()
      reads this`classMethods
    {
      classMethods.Some? ==> classMethods.value == declaredMethods
    }

    /** Every cached collaborator has the class derived from its name and the
        right back-reference; distinct names hold distinct objects; and each
        name was constructed exactly once. */
    ghost predicate Registries()
      reads this`resources, this`forms, this`resourceLog, this`formLog
    {
      && (forall n :: n in resources ==>
            resources[n].className == ClassName(className, ResourceKind, n) && resources[n].model == null)
      && (forall n :: n in forms ==>
            forms[n].className == ClassName(className, FormKind, n) && forms[n].model == this)
      && (forall a, b :: a in resources && b in resources && a != b ==> resources[a] != resources[b])
      && (forall a, b :: a in forms && b in forms && a != b ==> forms[a] != forms[b])
      && BuiltOnce(resourceLog, resources.Keys)
      && BuiltOnce(formLog, forms.Keys)
    }

    /** The log holds each name of the registry exactly once. */
    static ghost predicate BuiltOnce(log: seq<string>, names: set<string>) {
      && (forall i, j :: 0 <= i < j < |log| ==> log[i] != log[j])
      && (forall n :: n in log <==> n in names)
    }

    /** The model as constructed before any option is applied. */
    constructor (className: string, declaredMethods: set<string>, loadable: set<string>)
      requires {SetIdentityMethod, SetOptionsMethod} <= declaredMethods
      ensures Valid()
      ensures this.className == className && this.declaredMethods == declaredMethods && this.loadable == loadable
      ensures classMethods.None? && identity.None? && setterCalls == []
      ensures resources == map[] && forms == map[]
    {
      this.className := className;
      this.declaredMethods := declaredMethods;
      this.loadable := loadable;
      classMethods := None;
      resources := map[];
      forms := map[];
      identity := None;
      setterCalls := [];
      resourceLog := [];
      formLog := [];
    }

    /** __construct: build the model, apply the options when they are an
        array, then run the (empty) init hook. An exception from a setter
        aborts construction. */
    static method Create(className: string, declaredMethods: set<string>, loadable: set<string>,
                         options: Option<seq<OptionEntry>>)
      returns (m: Model, err: Option<Error>)
      requires {SetIdentityMethod, SetOptionsMethod} <= declaredMethods
      ensures fresh(m) && m.Valid()
      ensures m.className == className && m.declaredMethods == declaredMethods && m.loadable == loadable
      ensures m.resources == map[] && m.forms == map[]
      ensures options.None? ==> err.None? && m.classMethods.None? && m.identity.None? && m.setterCalls == []
      ensures options.Some? ==>
        var p := Run(None, Dispatch(options.value, declaredMethods));
        && m.classMethods == Some(declaredMethods)
        && m.setterCalls == p.made && m.identity == p.identity && err == p.error
    {
      m := new Model(className, declaredMethods, loadable);
      err := None;
      if options.Some? {
        err := m.SetOptions(options.value);
      }
      m.Init();
    }

    /** The hook concrete models override; here it does nothing. */
    method Init()
      ensures unchanged(this)
    {
    }

    /** setOptions: fill the method cache if it is empty, then for each option
        in order call set<Key> when the class has it. An exception from a
        setter ends the loop. */
    method SetOptions(options: seq<OptionEntry>) returns (err: Option<Error>)
      requires Valid()
      modifies this`classMethods, this`setterCalls, this`identity
      ensures Valid()
      ensures classMethods == Some(declaredMethods)
      ensures old(classMethods).Some? ==> classMethods == old(classMethods)
      ensures var p := Run(old(identity), Dispatch(options, declaredMethods));
        setterCalls == old(setterCalls) + p.made && identity == p.identity && err == p.error
    {
      if classMethods.None? {
        classMethods := Some(declaredMethods);
      }
      err := ApplyOptions(options, classMethods.value);
    }

    /** The loop of setOptions over the cached method set. */
    method ApplyOptions(options: seq<OptionEntry>, methods: set<string>) returns (err: Option<Error>)
      modifies this`setterCalls, this`identity
      ensures var p := Run(old(identity), Dispatch(options, methods));
        setterCalls == old(setterCalls) + p.made && identity == p.identity && err == p.error
    {
      ghost var identity0, calls0 := identity, setterCalls;
      // the outcome of the setter calls of the options applied so far
      ghost var done := Progress([], identity0, None);
      RunDispatchBounds(identity0, options, methods);
      err := None;
      var i := 0;
      while i < |options| && err.None?
        invariant 0 <= i <= |options|
        invariant done == Run(identity0, Dispatch(options[..i], methods))
        invariant setterCalls == calls0 + done.made && identity == done.identity && err == done.error
      {
        RunDispatchStep(identity0, options, i, methods);
        err, done := ApplyOption(options[i], methods, calls0, done);
        i := i + 1;
      }
      if err.Some? {
        // a setter threw: the remaining options are never applied
        RunStopsAtError(identity0, options, i, methods);
      }
    }

    /** One round of the loop of setOptions: the option's setter is invoked
        when the class has it. */
    method ApplyOption(entry: OptionEntry, methods: set<string>, ghost calls0: seq<SetterCall>, ghost done: Progress)
      returns (err: Option<Error>, ghost next: Progress)
      requires setterCalls == calls0 + done.made && identity == done.identity && done.error.None?
      modifies this`setterCalls, this`identity
      ensures next == Apply(done, entry, methods)
      ensures setterCalls == calls0 + next.made && identity == next.identity && err == next.error
    {
      var setter := SetterName(entry.0);
      next := done;
      err := None;
      if setter in methods {
        var call := SetterCall(setter, entry.1);
        ConcatAssoc(calls0, done.made, [call]);
        err := Invoke(call);
        next := Step(done, call);
      }
    }

    /** $this->$method($value): the setter is recorded; setIdentity also
        sets or rejects the identity. The effects of the base class's other
        setter, setOptions, and of the setters of subclasses are not
        modelled. */
    method Invoke(call: SetterCall) returns (err: Option<Error>)
      modifies this`setterCalls, this`identity
      ensures var p := Step(Progress(old(setterCalls), old(identity), None), call);
        setterCalls == p.made && identity == p.identity && err == p.error
    {
      setterCalls := setterCalls + [call];
      err := None;
      if call.setter == SetIdentityMethod {
        err := SetIdentity(call.arg);
      }
    }

    /** getResource: the cached resource for the name; otherwise build one of
        the class derived from the name and cache it. */
    method GetResource(name: string) returns (r: Result<Collaborator>)
      requires Valid()
      modifies this`resources, this`resourceLog
      ensures Valid()
      ensures name in old(resources) ==>
        r == Ok(old(resources)[name]) && resources == old(resources) && resourceLog == old(resourceLog)
      ensures name !in old(resources) ==>
        var cls := ClassName(className, ResourceKind, name);
        if cls in loadable then
          && r.Ok? && fresh(r.value) && r.value.className == cls && r.value.model == null
          && resources == old(resources)[name := r.value] && resourceLog == old(resourceLog) + [name]
        else
          r == Err(ClassNotFound(cls)) && resources == old(resources) && resourceLog == old(resourceLog)
    {
      if name !in resources {
        var cls := ClassName(className, ResourceKind, name);
        if cls !in loadable {
          return Err(ClassNotFound(cls));
        }
        var obj := new Collaborator(cls, null);
        resources := resources[name := obj];
        resourceLog := resourceLog + [name];
      }
      r := Ok(resources[name]);
    }

    /** getForm: as getResource, with the Form segment, and the form is built
        with a reference back to this model. */
    method GetForm(name: string) returns (r: Result<Collaborator>)
      requires Valid()
      modifies this`forms, this`formLog
      ensures Valid()
      ensures name in old(forms) ==>
        r == Ok(old(forms)[name]) && forms == old(forms) && formLog == old(formLog)
      ensures name !in old(forms) ==>
        var cls := ClassName(className, FormKind, name);
        if cls in loadable then
          && r.Ok? && fresh(r.value) && r.value.className == cls && r.value.model == this
          && forms == old(forms)[name := r.value] && formLog == old(formLog) + [name]
        else
          r == Err(ClassNotFound(cls)) && forms == old(forms) && formLog == old(formLog)
    {
      if name !in forms {
        var cls := ClassName(className, FormKind, name);
        if cls !in loadable {
          return Err(ClassNotFound(cls));
        }
        var obj := new Collaborator(cls, this);
        forms := forms[name := obj];
        formLog := formLog + [name];
      }
      r := Ok(forms[name]);
    }

    /** setIdentity: store the role made from the value, or throw "Invalid
        identity provided" and keep the identity as it was. */
    method SetIdentity(v: Value) returns (err: Option<Error>)
      modifies this`identity
      ensures ToRole(v).Ok? ==> identity == Some(ToRole(v).value) && err.None?
      ensures ToRole(v).Err? ==> identity == old(identity) && err == Some(ToRole(v).error)
    {
      var r := ToRole(v);
      if r.Err? {
        return Some(r.error);
      }
      identity := Some(r.value);
      err := None;
    }

    /** getIdentity, with the authentication service's state as input. */
    method GetIdentity(auth: Auth) returns (r: Result<Caller>)
      modifies this`identity
      ensures match Resolve(old(identity), auth)
        case Ok(res) => r == Ok(res.caller) && identity == res.cached
        case Err(e) => r == Err(e) && identity == old(identity)
    {
      if identity.None? {
        if !auth.hasIdentity {
          return Ok(GuestName);
        }
        var e := SetIdentity(auth.identity);
        if e.Some? {
          return Err(e.value);
        }
      }
      r := Ok(Resolved(identity.value));
    }

    /** checkAcl: resolve the identity, then ask the ACL whether it may perform
        the action on this model; the verdict is returned unchanged. */
    method CheckAcl(action: string, auth: Auth, isAllowed: (Caller, Model, string) -> bool)
      returns (r: Result<bool>)
      modifies this`identity
      ensures match Resolve(old(identity), auth)
        case Ok(res) => r == Ok(isAllowed(res.caller, this, action)) && identity == res.cached
        case Err(e) => r == Err(e) && identity == old(identity)
    {
      var who := GetIdentity(auth);
      if who.Err? {
        return Err(who.error);
      }
      r := Ok(isAllowed(who.value, this, action));
    }
  }

  /** What a caller can conclude from the contracts alone, for any model
      class, resource name, user and action. */
  method ClientScenario(className: string, name: string, user: string, action: string,
                        isAllowed: (Caller, Model, string) -> bool)
  {
    var cls := ClassName(className, ResourceKind, name);
    var m := new Model(className, {SetIdentityMethod, SetOptionsMethod}, {cls});

    // A resource is built once and then served from the cache.
    var r1 := m.GetResource(name);
    var r2 := m.GetResource(name);
    assert r1.Ok? && r2 == r1 && r1.value.className == cls;

    // Nobody logged in: "Guest", not cached, so a later login is seen.
    var nobody := Auth(false, Null);
    var g1 := m.GetIdentity(nobody);
    assert g1 == Ok(GuestName) && m.identity.None?;
    var someone := Auth(true, Str(user));
    var g2 := m.GetIdentity(someone);
    assert g2 == Ok(Resolved(Role(Str(user))));
    var g3 := m.GetIdentity(nobody);
    assert g3 == g2;

    // A boolean identity is rejected and the cached role survives.
    var e := m.SetIdentity(Bool(true));
    assert e == Some(InvalidIdentity) && m.identity == Some(Role(Str(user)));

    // The ACL sees the resolved role and the model itself.
    var ok := m.CheckAcl(action, nobody, isAllowed);
    assert ok == Ok(isAllowed(Resolved(Role(Str(user))), m, action));
  }
}
