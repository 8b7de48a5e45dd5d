/**
 * `LoginCredentials`: a store of key/value strings (user name, password,
 * key files and so on) that an SSH connection reads its settings from.
 */
module Credentials {
  /** `value(key)` of a store: the stored string, or the empty string for a key never set. */
  function ValueOf(values: map<string, string>, key: string): (r: string)
    ensures key in values ==> r == values[key]
    ensures key !in values ==> r == ""
  {
    if key in values then values[key] else ""
  }

  /**
   * Setting a key makes it set, reads back the value given, and leaves
   * what every other key reads as it was.
   */
  lemma SetThenRead(values: map<string, string>, key: string, value: string, other: string)
    ensures other in values[key := value] <==> other == key || other in values
    ensures ValueOf(values[key := value], other) == if other == key then value else ValueOf(values, other)
  {
  }

  class LoginCredentials {
    /** `m_values`. */
    var values: map<string, string>

    /** An empty store. */
    constructor ()
      ensures values == map[]
    {
      values := map[];
    }

    /**
     * The copy constructor and the constructor from a `const` rvalue
     * reference: both copy the whole map, so the source store keeps its
     * values.
     */
    constructor CopyOf(other: LoginCredentials)
      ensures values == other.values
    {
      values := other.values;
    }

    /** Both assignment operators: the whole map is copied over. */
    method Assign(other: LoginCredentials)
      modifies this
      ensures values == old(other.values) && other.values == old(other.values)
    {
      values := other.values;
    }

    /** `isSet`: whether the key has a value. */
    method IsSet(key: string) returns (r: bool)
      ensures r <==> key in values
    {
      r := key in values;
    }

    /** `value`: the stored string, or the empty string. */
    method Value(key: string) returns (r: string)
      ensures r == ValueOf(values, key)
      ensures key !in values ==> r == ""
    {
      if key in values {
        return values[key];
      }
      return "";
    }

    /** `setValue`: inserts the key or overwrites its value; no other key changes. */
    method SetValue(key: string, value: string)
      modifies this
      ensures values == old(values)[key := value]
      ensures key in values && ValueOf(values, key) == value
      ensures forall k :: k != key ==> (k in values <==> k in old(values)) && ValueOf(values, k) == ValueOf(old(values), k)
    {
      values := values[key := value];
    }
  }
}
