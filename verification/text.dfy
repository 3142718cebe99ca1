/**
 * Text and path helpers shared by the request handlers and by both storage
 * backends: the few Python string operations they rely on (`strip()`,
 * `lower()`, `rsplit('.', 1)`, `rstrip('/')`, `endswith`), path joining and
 * the `/uploads/<name>` route.
 */
module Text {

  datatype Option<T> = None | Some(value: T) {
    /** `x or default` / `d.get(k, default)`: the value, or the default when absent. */
    function GetOr(default: T): T {
      match this
      case Some(v) => v
      case None => default
    }
  }

  /** One byte of an uploaded image. */
  type byte = b: int | 0 <= b < 256

  /** Python's `str.isspace()`: exactly the characters that `str.strip()` removes. */
  predicate IsSpace(c: char) {
    ('\t' <= c <= '\r') || ('\U{1C}' <= c <= ' ') || c == '\U{85}' || c == '\U{A0}' ||
    c == '\U{1680}' || ('\U{2000}' <= c <= '\U{200A}') || c == '\U{2028}' || c == '\U{2029}' ||
    c == '\U{202F}' || c == '\U{205F}' || c == '\U{3000}'
  }

  /** Drops the longest prefix of `s` whose characters all satisfy `drop`. */
  function TrimStart(s: string, drop: char -> bool): (r: string)
    ensures |r| <= |s|
    ensures r == [] || !drop(r[0])
  {
    if |s| > 0 && drop(s[0]) then TrimStart(s[1..], drop) else s
  }

  /** What `TrimStart` removes is a prefix, made only of characters that satisfy `drop`. */
  lemma {:induction false} TrimStartDropsPrefix(s: string, drop: char -> bool)
    ensures var r := TrimStart(s, drop);
      r == s[|s| - |r|..] && forall i :: 0 <= i < |s| - |r| ==> drop(s[i])
  {
    if |s| > 0 && drop(s[0]) {
      TrimStartDropsPrefix(s[1..], drop);
      var r := TrimStart(s, drop);
      forall i | 0 < i < |s| - |r| ensures drop(s[i]) {
        assert s[i] == s[1..][i - 1];
      }
    }
  }

  /** Drops the longest suffix of `s` whose characters all satisfy `drop` (Python's `rstrip(chars)`). */
  function TrimEnd(s: string, drop: char -> bool): (r: string)
    ensures |r| <= |s|
    ensures r == [] || !drop(r[|r| - 1])
  {
    if |s| > 0 && drop(s[|s| - 1]) then TrimEnd(s[..|s| - 1], drop) else s
  }

  /** What `TrimEnd` removes is a suffix, made only of characters that satisfy `drop`. */
  lemma {:induction false} TrimEndDropsSuffix(s: string, drop: char -> bool)
    ensures var r := TrimEnd(s, drop);
      r == s[..|r|] && forall i :: |r| <= i < |s| ==> drop(s[i])
  {
    if |s| > 0 && drop(s[|s| - 1]) {
      TrimEndDropsSuffix(s[..|s| - 1], drop);
    }
  }

  /** Python's `str.strip()` with no argument. */
  function Strip(s: string): (r: string)
    ensures r == [] || (!IsSpace(r[0]) && !IsSpace(r[|r| - 1]))
  {
    var t := TrimStart(s, IsSpace);
    TrimEndDropsSuffix(t, IsSpace);
    TrimEnd(t, IsSpace)
  }

  /** A field is empty after `strip()` exactly when it holds nothing but whitespace. */
  lemma StripEmptyIff(s: string)
    ensures Strip(s) == [] <==> forall i :: 0 <= i < |s| ==> IsSpace(s[i])
  {
    TrimStartDropsPrefix(s, IsSpace);
    TrimEndDropsSuffix(TrimStart(s, IsSpace), IsSpace);
  }

  /** ASCII case folding, the part of Python's `str.lower()` this model covers. */
  function LowerChar(c: char): char {
    if 'A' <= c <= 'Z' then (c as int - 'A' as int + 'a' as int) as char else c
  }

  function Lower(s: string): string {
    seq(|s|, i requires 0 <= i < |s| => LowerChar(s[i]))
  }

  lemma LowerIdempotent(s: string)
    ensures Lower(Lower(s)) == Lower(s)
  {
  }

  /** Lower-casing neither adds nor removes dots. */
  lemma LowerKeepsDots(s: string)
    ensures '.' in Lower(s) <==> '.' in s
  {
    if '.' in s {
      var i :| 0 <= i < |s| && s[i] == '.';
      assert Lower(s)[i] == '.';
    }
  }

  /** Python's `s.rfind(c)`: the index of the last occurrence of `c`, if any. */
  function LastIndexOf(s: string, c: char): (r: Option<nat>)
    ensures r.None? <==> c !in s
    ensures r.Some? ==> r.value < |s| && s[r.value] == c && c !in s[r.value + 1..]
  {
    if |s| == 0 then None
    else if s[|s| - 1] == c then Some(|s| - 1)
    else LastIndexOf(s[..|s| - 1], c)
  }

  /** `s.endswith(suffix)`. */
  predicate EndsWith(s: string, suffix: string) {
    |suffix| <= |s| && s[|s| - |suffix|..] == suffix
  }

  /** `str(Path(dir) / name)` for a relative `name`. */
  function Join(dir: string, name: string): string {
    dir + "/" + name
  }

  /** The route under which the Flask application serves a locally stored image. */
  function ServedUrl(filename: string): string {
    "/uploads/" + filename
  }
}
