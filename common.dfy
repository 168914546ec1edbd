// Shared value wrappers: the source's nullable references and thrown
// exceptions become Option and Result values.
module Wrappers {

  datatype Option<T> = None | Some(value: T)

  datatype Result<T, E> = Ok(value: T) | Err(error: E)
  {
    predicate IsFailure() { Err? }
  }
}

// The handful of .NET string operations the core relies on, written out
// over seq<char>.
module Text {
  import opened Wrappers

  type String = seq<char>

  /** Char.IsWhiteSpace: the Unicode space, line and paragraph separators
      together with U+0009..U+000D and U+0085. */
  predicate IsWhiteSpace(c: char)
  {
    ('\U{9}' <= c <= '\U{D}') || c == ' ' || c == '\U{85}' || c == '\U{A0}'
    || c == '\U{1680}' || ('\U{2000}' <= c <= '\U{200A}') || c == '\U{2028}' || c == '\U{2029}'
    || c == '\U{202F}' || c == '\U{205F}' || c == '\U{3000}'
  }

  /** String.IsNullOrWhiteSpace; None stands for a null reference. */
  predicate IsNullOrWhiteSpace(s: Option<String>)
  {
    s.None? || forall i :: 0 <= i < |s.value| ==> IsWhiteSpace(s.value[i])
  }

  /** String.IsNullOrEmpty. */
  predicate IsNullOrEmpty(s: Option<String>)
  {
    s.None? || |s.value| == 0
  }

  /** String.TrimEnd(): drops trailing white space. */
  function TrimEnd(s: String): (r: String)
    ensures |r| <= |s| && r == s[..|r|]
    ensures |r| > 0 ==> !IsWhiteSpace(r[|r| - 1])
    ensures forall i :: |r| <= i < |s| ==> IsWhiteSpace(s[i])
  {
    if |s| > 0 && IsWhiteSpace(s[|s| - 1]) then TrimEnd(s[..|s| - 1]) else s
  }

  /** String.TrimStart(): drops leading white space. */
  function TrimStart(s: String): (r: String)
    ensures |r| <= |s| && r == s[|s| - |r|..]
    ensures |r| > 0 ==> !IsWhiteSpace(r[0])
    ensures forall i :: 0 <= i < |s| - |r| ==> IsWhiteSpace(s[i])
  {
    if |s| > 0 && IsWhiteSpace(s[0]) then TrimStart(s[1..]) else s
  }

  /** String.Trim(): white space removed at both ends. */
  function Trim(s: String): String
  {
    TrimStart(TrimEnd(s))
  }

  /** t occurs in s at position i. */
  predicate OccursAt(s: String, t: String, i: int)
  {
    0 <= i && i + |t| <= |s| && s[i..i + |t|] == t
  }

  /** String.Contains(string): an ordinal substring test. */
  predicate Contains(s: String, t: String)
  {
    exists i :: 0 <= i <= |s| && OccursAt(s, t, i)
  }

  /** String.Join(sep, parts). */
  function Join(sep: String, parts: seq<String>): (r: String)
    ensures parts == [] ==> r == []
    ensures |parts| == 1 ==> r == parts[0]
  {
    if parts == [] then []
    else if |parts| == 1 then parts[0]
    else Join(sep, parts[..|parts| - 1]) + sep + parts[|parts| - 1]
  }
}
