/** Values shared by several components: options, lookups, lower case, and the symbol kinds that matter to them. */
module Model {
  datatype Option<+T> = None | Some(value: T)

  /** `NoKind` is the empty text a synthetic trie node stores. */
  datatype Kind = Scalar | Column | Table | TableEntry | NotificationType | TrapType | OtherKind | NoKind

  function Look<K, V>(m: map<K, V>, k: K): Option<V> {
    if k in m then Some(m[k]) else None
  }

  function LowerChar(c: char): char {
    if 'A' <= c <= 'Z' then (c as int + 32) as char else c
  }

  /** Lower-casing on ASCII, which keeps lengths. */
  function Lower(s: string): (l: string)
    ensures |l| == |s|
  {
    seq(|s|, i requires 0 <= i < |s| => LowerChar(s[i]))
  }
}
