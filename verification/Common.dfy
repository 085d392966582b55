/** What several of the models share. */
module Common {

  datatype Option<T> = None | Some(value: T)

  type Byte = x: int | 0 <= x < 0x100

  /** Bytes by address. */
  type Memory = map<nat, Byte>

  function Min(a: nat, b: nat): nat {
    if a < b then a else b
  }

  /** ASCII white space, as `str.isspace` and `bytes.fromhex` see it. */
  predicate Space(c: char) {
    c == ' ' || c == '\t' || c == '\n' || c == '\r' || c == 11 as char || c == 12 as char
  }
}
