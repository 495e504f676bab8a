/** The PHP values the model base class receives and hands out, its role
    objects, and the two failures it can raise. */
module Values {

  datatype Option<+T> = None | Some(value: T)

  /** The two failure kinds: setIdentity's "Invalid identity provided"
      exception, and the fatal error of `new $class` on an unknown class. */
  datatype Error = InvalidIdentity | ClassNotFound(className: string)

  datatype Result<+T> = Ok(value: T) | Err(error: Error)

  /** A PHP value, as far as setIdentity tells its shapes apart. Arrays are
      keyed by strings; objects are either role objects (instances of
      Zend_Acl_Role_Interface) or any other object, named by its class. */
  datatype Value =
    | Null
    | Bool(b: bool)
    | Int(i: int)
    | Float(f: real)
    | Str(s: string)
    | Arr(entries: map<string, Value>)
    | RoleObject(role: Role)
    | Object(cls: string)
  {
    /** PHP's is_scalar: integers, floats, strings and booleans. */
    predicate IsScalar() {
      Bool? || Int? || Float? || Str?
    }
  }

  /** A Zend_Acl_Role, identified by the value it was built from. */
  datatype Role = Role(id: Value)

  /** The role identifier setIdentity falls back to. */
  const GuestId: Value := Str("Guest")
}
