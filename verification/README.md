# SF_Model_Abstract in Dafny

A model of `SF_Model_Abstract`, the base class of the Storefront application's
domain models (Zend Framework 1). It has four jobs:

- it applies an options array through the model's own setters (`setOptions`,
  called from the constructor). A setter is used only when
  `"set" . ucfirst($key)` is one of the class's methods. The method list is
  read once and cached in `_classMethods`;
- it builds resources and forms on first use and caches them by logical name
  (`getResource`, `getForm`). Their class name is derived from the model's
  namespace, the category (`Resource` or `Form`) and the inflected name;
- it resolves the caller's identity into an ACL role (`setIdentity`,
  `getIdentity`). The role is cached in `_identity`, except for the transient
  "Guest" answer given when nobody is logged in;
- it asks the ACL whether that identity may perform an action on the model
  (`checkAcl`).

Layout:

- `Values.dfy`: the PHP values the class receives, roles, the two failure
  kinds, and `Option`/`Result`.
- `Naming.dfy`: `explode`/`join` on `_`, the namespace, `ucfirst`, the
  camel-case inflection, and the derived class names, with their round
  trips and shape lemmas.
- `Identity.dfy`: what `setIdentity` makes of each kind of value (`ToRole`)
  and what `getIdentity` answers (`Resolve`), as pure functions.
- `Options.dfy`: which setter calls `setOptions` makes (`Dispatch`) and what
  running them does to the identity (`Run`), with lemmas on order, skipping
  and early exit.
- `ModelAbstract.dfy`: the class `Model` with the four fields. Its methods
  change them in place and are proved against the functions above.

Collaborators are modelled as follows:

- Authentication (`Zend_Auth`) is an `Auth` value passed in.
- The ACL is a function parameter `isAllowed`.
- Reflection (`get_class_methods`) is the set `declaredMethods`.
- Class loading (`new $class`) succeeds for the class names in `loadable`.
  It builds a fresh `Collaborator` that records its class and, for forms, the
  owning model.

## Model

| member | source | states |
|---|---|---|
| Naming.Explode | _src/exported_source/chapter7/trunk/library/SF/Model/Abstract.php:133 | explode always yields at least one piece, and no piece contains `_` |
| Naming.JoinExplode | _src/exported_source/chapter7/trunk/library/SF/Model/Abstract.php:133 | joining the pieces of an explode on `_` gives back the original string |
| Naming.ExplodeJoin | _src/exported_source/chapter7/trunk/library/SF/Model/Abstract.php:96-100 | exploding the `_`-join of `_`-free pieces gives back the pieces |
| Naming.Join | _src/exported_source/chapter7/trunk/library/SF/Model/Abstract.php:96-100 | the join of a non-empty list of pieces starts with the first piece |
| Naming.Namespace | _src/exported_source/chapter7/trunk/library/SF/Model/Abstract.php:131-135 | the namespace contains no `_` and is no longer than the class name |
| Naming.NamespaceIsFirstSegment | _src/exported_source/chapter7/trunk/library/SF/Model/Abstract.php:131-135 | the namespace is the longest `_`-free prefix of the class name: either the whole name or followed by `_` |
| Naming.UcFirst | _src/exported_source/chapter7/trunk/library/SF/Model/Abstract.php:151 | ucfirst keeps the length and every character after the first; a lower-case first letter becomes its own upper-case letter, anything else is untouched |
| Naming.CamelToUnderscore | _src/exported_source/chapter7/trunk/library/SF/Model/Abstract.php:147-150 | the filter never shortens a name and keeps its first character |
| Naming.CamelToUnderscoreOnlyInserts | _src/exported_source/chapter7/trunk/library/SF/Model/Abstract.php:147-150 | the filter only inserts `_`: with every `_` removed, output and input agree |
| Naming.CamelToUnderscoreSplitsHumps | _src/exported_source/chapter7/trunk/library/SF/Model/Abstract.php:147-150 | no lower-case letter or digit is directly followed by an upper-case letter in the output |
| Naming.CamelToUnderscoreWords | _src/exported_source/chapter7/trunk/library/SF/Model/Abstract.php:147-150 | on a camel-case name, the filter's output is the name's words joined by one `_` each |
| Naming.InflectSpec | _src/exported_source/chapter7/trunk/library/SF/Model/Abstract.php:145-152 | for a name without `_`, the inflected name spells ucfirst(name) once the `_` are removed, and no camel-case hump is left in it |
| Naming.Inflect | _src/exported_source/chapter7/trunk/library/SF/Model/Abstract.php:145-152 | the inflected name is no shorter than the name, and starts with the name's first character after ucfirst, never with a lower-case letter |
| Naming.InflectCamelWords | _src/exported_source/chapter7/trunk/library/SF/Model/Abstract.php:137-152 | camelCaseWord becomes Camel_Case_Word: the words joined by `_`, the first one capitalised |
| Naming.InflectIgnoresFirstCase | _src/exported_source/chapter7/trunk/library/SF/Model/Abstract.php:145-152 | capitalising the first letter of a camel-case name whose first word has two or more characters does not change its inflection |
| Naming.ClassNameShape | _src/exported_source/chapter7/trunk/library/SF/Model/Abstract.php:96-119 | the derived class name is the namespace + `_Resource_` or `_Form_` + the inflected name |
| Naming.ClassNameNamespace | _src/exported_source/chapter7/trunk/library/SF/Model/Abstract.php:131-135 | the derived class splits into the model's namespace, the category and the pieces of the inflected name; so it shares the model's namespace |
| Naming.ClassName | _src/exported_source/chapter7/trunk/library/SF/Model/Abstract.php:96-100 | the derived class name starts with the model's namespace |
| Naming.ClassNameCamelWords | _src/exported_source/chapter7/trunk/library/SF/Model/Abstract.php:96-100 | for a camel-case logical name the class is namespace, category and the capitalised words, joined by `_` |
| Identity.ToRole | _src/exported_source/chapter7/trunk/library/SF/Model/Abstract.php:162-173 | setIdentity rejects a value, with "Invalid identity provided", exactly when it is a boolean or an object that is not a role |
| Identity.ToRoleArray | _src/exported_source/chapter7/trunk/library/SF/Model/Abstract.php:162-166 | an array without a set `role` entry gives the Guest role; one with it gives a role named by that entry |
| Identity.ToRoleScalarNullRole | _src/exported_source/chapter7/trunk/library/SF/Model/Abstract.php:167-171 | a non-boolean scalar names the role; null gives Guest; a role object is kept as it is |
| Identity.Resolve | _src/exported_source/chapter7/trunk/library/SF/Model/Abstract.php:183-193 | getIdentity answers "Guest" exactly when nothing ends up cached; it fails exactly when nothing was cached, someone is logged in and setIdentity rejects their identity |
| Identity.ResolveCached | _src/exported_source/chapter7/trunk/library/SF/Model/Abstract.php:185-192 | a cached role is returned and kept whatever the authentication service says |
| Identity.ResolveGuestNotCached | _src/exported_source/chapter7/trunk/library/SF/Model/Abstract.php:185-189 | with nobody logged in the answer is "Guest", nothing is cached, and the next call sees a later login |
| Identity.ResolveAgreesWithSetIdentity | _src/exported_source/chapter7/trunk/library/SF/Model/Abstract.php:190 | a logged-in identity resolves to the role setIdentity stores for it, or fails as setIdentity does |
| Identity.ResolveStable | _src/exported_source/chapter7/trunk/library/SF/Model/Abstract.php:185-192 | once a role is resolved, every later call returns it and leaves the cache unchanged |
| Options.SetterNameSame | _src/exported_source/chapter7/trunk/library/SF/Model/Abstract.php:79 | two option keys select the same setter if and only if they agree after ucfirst |
| Options.SetIdentityKeys | _src/exported_source/chapter7/trunk/library/SF/Model/Abstract.php:79 | the keys `identity` and `Identity`, and no others, select setIdentity |
| Options.Emit | _src/exported_source/chapter7/trunk/library/SF/Model/Abstract.php:79-82 | an option yields one call, its setter with its value, exactly when the class has that setter; otherwise none |
| Options.Dispatch | _src/exported_source/chapter7/trunk/library/SF/Model/Abstract.php:78-83 | setOptions makes at most one call per option |
| Options.DispatchAppend | _src/exported_source/chapter7/trunk/library/SF/Model/Abstract.php:78-83 | calls follow option order: the calls for a + b are those for a, then those for b |
| Options.DispatchMembership | _src/exported_source/chapter7/trunk/library/SF/Model/Abstract.php:78-82 | a call is made if and only if its setter is a class method and some option's key selects it with that value |
| Options.DispatchAllKnown | _src/exported_source/chapter7/trunk/library/SF/Model/Abstract.php:78-82 | when every option has a setter, the i-th call is the i-th option's setter with its value |
| Options.DispatchAllUnknown | _src/exported_source/chapter7/trunk/library/SF/Model/Abstract.php:80 | options with no matching setter are skipped without effect and without error |
| Options.Run | _src/exported_source/chapter7/trunk/library/SF/Model/Abstract.php:78-83 | the calls made are a prefix of the requested calls, in order, and all of them when nothing is thrown |
| Options.RunAfterError | _src/exported_source/chapter7/trunk/library/SF/Model/Abstract.php:78-83 | once a setter has thrown, later calls change nothing |
| Options.RunCompletesOrStopsAtBadIdentity | _src/exported_source/chapter7/trunk/library/SF/Model/Abstract.php:78-83 | the calls made are the requested calls in order up to and including the first setIdentity call whose value is rejected, after which the run stops with "Invalid identity provided"; without such a call every call is made and nothing is thrown |
| Options.RunWithoutSetIdentity | _src/exported_source/chapter7/trunk/library/SF/Model/Abstract.php:81 | without a setIdentity call, the identity is untouched and nothing is thrown |
| Options.Step | _src/exported_source/chapter7/trunk/library/SF/Model/Abstract.php:81 | a setter call is recorded; it throws exactly when it is a setIdentity call with a rejected value; the identity changes only by an accepted setIdentity call, to that call's role |
| Options.Apply | _src/exported_source/chapter7/trunk/library/SF/Model/Abstract.php:79-82 | one loop round records exactly the call `Emit` gives for the option, and changes nothing when the class lacks the setter |
| Options.RunIdentityOrigin | _src/exported_source/chapter7/trunk/library/SF/Model/Abstract.php:78-83 | the identity after the options is the role of the last accepted setIdentity call made, or the initial identity when no such call was made |
| Options.IdentityOption | _src/exported_source/chapter7/trunk/library/SF/Model/Abstract.php:78-82 | because every model class has setIdentity, the option `identity` is passed to setIdentity and has its effect |
| Options.RunDispatchStep | _src/exported_source/chapter7/trunk/library/SF/Model/Abstract.php:78-83 | the outcome for the first i+1 options is one more round after the first i |
| Options.RunStopsAtError | _src/exported_source/chapter7/trunk/library/SF/Model/Abstract.php:78-83 | when the first k options have thrown, the outcome for all options is the outcome for those k |
| ModelAbstract.Model.constructor | _src/exported_source/chapter7/trunk/library/SF/Model/Abstract.php:20-40 | a new model has no cached methods, no identity, and empty resource and form registries; its methods include the base class's setIdentity and setOptions |
| ModelAbstract.Model.Create | _src/exported_source/chapter7/trunk/library/SF/Model/Abstract.php:48-59 | construction applies the options when they are given, and the resulting state is what setOptions promises |
| ModelAbstract.Model.Init | _src/exported_source/chapter7/trunk/library/SF/Model/Abstract.php:64-65 | the base class's init hook changes nothing |
| ModelAbstract.Model.SetOptions | _src/exported_source/chapter7/trunk/library/SF/Model/Abstract.php:73-85 | the method cache is filled once with the class's methods; the setter calls and the identity are those of `Run` over `Dispatch` of the options; the exception is the one raised |
| ModelAbstract.Model.ApplyOptions | _src/exported_source/chapter7/trunk/library/SF/Model/Abstract.php:78-83 | the loop over the options makes exactly the calls of `Run(Dispatch(options))` and leaves its identity and error |
| ModelAbstract.Model.ApplyOption | _src/exported_source/chapter7/trunk/library/SF/Model/Abstract.php:79-82 | one loop round changes the state as `Apply` says |
| ModelAbstract.Model.Invoke | _src/exported_source/chapter7/trunk/library/SF/Model/Abstract.php:81 | a setter call changes the state as `Step` says |
| ModelAbstract.Model.GetResource | _src/exported_source/chapter7/trunk/library/SF/Model/Abstract.php:93-104 | a cached name returns the same object with nothing changed; otherwise a fresh object of the derived Resource class is cached under the name and logged once; an unknown class fails with nothing changed; forms are untouched |
| ModelAbstract.Model.GetForm | _src/exported_source/chapter7/trunk/library/SF/Model/Abstract.php:112-123 | as GetResource with the Form class, and the new form refers back to this model; resources are untouched |
| ModelAbstract.Model.SetIdentity | _src/exported_source/chapter7/trunk/library/SF/Model/Abstract.php:160-176 | a valid value stores the role ToRole gives; a rejected one raises the error and keeps the old identity |
| ModelAbstract.Model.GetIdentity | _src/exported_source/chapter7/trunk/library/SF/Model/Abstract.php:183-193 | the answer and the new cache are those of `Resolve` from the old cache and the authentication state |
| ModelAbstract.Model.CheckAcl | _src/exported_source/chapter7/trunk/library/SF/Model/Abstract.php:201-208 | the ACL's verdict for the resolved identity, this model and the action is returned unchanged; an identity error is passed on |
| ModelAbstract.Collaborator.constructor | _src/exported_source/chapter7/trunk/library/SF/Model/Abstract.php:101 | a built collaborator records its class name and its owning model |

## Left out

- Zend_Config options (lines 50-52): the options are taken as an already converted sequence of key/value pairs.
- Integer array keys: option keys and array keys are strings; PHP's integer keys and their `ucfirst` are not modelled.
- Reflection: `get_class_methods` is the given set `declaredMethods`.
- Dynamic dispatch: setters other than `setIdentity` are recorded in `setterCalls` and have no other effect. A subclass that overrides `setIdentity`, or whose setters call `setOptions` again, is not modelled.
- The option key `options`: it selects the base class's own `setOptions` (line 73), so PHP applies a nested array as options again and fails the `array` type hint on any other value. The model only records that call in `setterCalls`; the nested application and the type error are not modelled, because option arrays are modelled as ordered key/value sequences while array values are unordered maps.
- Class loading: `new $class` succeeds exactly for the names in `loadable`. PHP's fatal error for an unknown class becomes the error value `ClassNotFound`. Constructor arguments other than the form's back-reference are not modelled.
- Naming.CamelToUnderscore: models only the filter's main rule, a `_` before an upper-case letter that follows a lower-case letter or digit. The inflector's rule for runs of capitals (acronyms) is not modelled; the inflector library is not part of this model.
- Naming.UcFirst: ASCII only. Locale-dependent case mapping is not modelled.
- Zend_Acl_Role: a role keeps the raw PHP value it was built from. The role's string cast of that value is not modelled.
- Authentication: `Zend_Auth::getInstance()` is replaced by an `Auth` value passed to `GetIdentity` and `CheckAcl`.
- ACL: `getAcl()` is provided by subclasses. Its `isAllowed` is a function parameter of `CheckAcl`, and the `Zend_Acl` singleton and its rules are not modelled.
- The protected `_acl` field is not modelled, because this class never reads or writes it.
- `init()` is the empty hook; overrides in subclasses are not modelled.
