/** Localised text: the translation table and its flat key lookup. */
module Texts {

  /** A value that may be absent (a key missing from a lookup table). */
  datatype Option<+T> = None | Some(value: T)

  /** The strings of one language, keyed by text key (`nav_home`, `ws`, ...). */
  type Strings = map<string, string>

  /** The translation table: language code to that language's strings. */
  type Table = map<string, Strings>

  /** The string stored under `key`, or `None` when the key is missing.
      Both `texts.nav_home` and `char.name[lang]` are lookups of this kind. */
  function Lookup(m: map<string, string>, key: string): (r: Option<string>)
    ensures r == None <==> key !in m
  {
    if key in m then Some(m[key]) else None
  }
}
