/** The `java.lang.String` operations the core relies on: `length()`, `trim()`, the
    blank test of `@NotBlank` and of `s.trim().isEmpty()`, `split(",", 2)`, and the
    upper-casing inside `Sort.Direction.fromString`. */
module JavaText {
  import opened Base

  /** The UTF-16 code units a character takes: a surrogate pair above U+FFFF. */
  function Utf16Units(c: char): (n: nat)
    ensures n == (if c as int > 0xFFFF then 2 else 1)
  {
    if c as int > 0xFFFF then 2 else 1
  }

  /** `s.length()`, which counts UTF-16 code units, not characters. */
  function Utf16Length(s: string): (n: nat)
    ensures |s| <= n <= 2 * |s|
  {
    if s == [] then 0 else Utf16Units(s[0]) + Utf16Length(s[1..])
  }

  /** A string within the Basic Multilingual Plane has one code unit per character. */
  lemma {:induction false} BmpLength(s: string)
    requires forall i | 0 <= i < |s| :: s[i] as int <= 0xFFFF
    ensures Utf16Length(s) == |s|
  {
    if s != [] {
      BmpLength(s[1..]);
    }
  }

  /** `k` copies of one character take `k` times its code units. */
  lemma {:induction false} RepeatedLength(c: char, k: nat)
    ensures Utf16Length(seq(k, _ => c)) == k * Utf16Units(c)
  {
    if k > 0 {
      var s := seq(k, _ => c);
      assert s[1..] == seq(k - 1, _ => c);
      RepeatedLength(c, k - 1);
    }
  }

  /** `trim()` removes every leading and trailing character at or below U+0020. */
  predicate IsTrimmed(c: char) {
    c <= ' '
  }

  /** The index of the first character `trim()` keeps. */
  function TrimStart(s: string, i: nat): (k: nat)
    requires i <= |s|
    ensures i <= k <= |s|
    ensures forall j | i <= j < k :: IsTrimmed(s[j])
    ensures k < |s| ==> !IsTrimmed(s[k])
    decreases |s| - i
  {
    if i < |s| && IsTrimmed(s[i]) then TrimStart(s, i + 1) else i
  }

  /** One past the index of the last character `trim()` keeps, not below `lo`. */
  function TrimEnd(s: string, lo: nat, j: nat): (k: nat)
    requires lo <= j <= |s|
    ensures lo <= k <= j
    ensures forall m | k <= m < j :: IsTrimmed(s[m])
    ensures k > lo ==> !IsTrimmed(s[k - 1])
    decreases j
  {
    if j > lo && IsTrimmed(s[j - 1]) then TrimEnd(s, lo, j - 1) else j
  }

  /** `s.trim()`: the longest slice of `s` that neither starts nor ends with a
      character at or below U+0020. */
  function Trim(s: string): (t: string)
    ensures |t| <= |s|
    ensures t != [] ==> !IsTrimmed(t[0]) && !IsTrimmed(t[|t| - 1])
    ensures t == [] <==> forall i | 0 <= i < |s| :: IsTrimmed(s[i])
    ensures forall c | c in t :: c in s
  {
    var lo := TrimStart(s, 0);
    var hi := TrimEnd(s, lo, |s|);
    assert forall i | 0 <= i < hi - lo :: s[lo..hi][i] == s[lo + i];
    s[lo..hi]
  }

  /** `s == null || s.trim().isEmpty()`, the test `@NotBlank` fails on. */
  predicate IsBlank(s: Option<string>) {
    s.None? || Trim(s.value) == []
  }

  /** The index of the first `c` in `s`. */
  function IndexOf(s: string, c: char): (r: Option<nat>)
    ensures r.None? <==> c !in s
    ensures r.Some? ==> r.value < |s| && s[r.value] == c && c !in s[..r.value]
    ensures forall j | 0 <= j < |s| && s[j] == c :: r.Some? && r.value <= j
  {
    if |s| == 0 then None
    else if s[0] == c then Some(0)
    else
      var r := IndexOf(s[1..], c);
      if r.None? then None
      else
        assert s[..r.value + 1] == [s[0]] + s[1..][..r.value];
        Some(r.value + 1)
  }

  /** `s.split(",", 2)`: the whole string when it holds no comma, otherwise what
      precedes and what follows the first comma (either may be empty, and the second
      may hold further commas). */
  function SplitAtFirstComma(s: string): (parts: seq<string>)
    ensures 1 <= |parts| <= 2
    ensures |parts| == 1 <==> ',' !in s
    ensures |parts| == 1 ==> parts[0] == s
    ensures |parts| == 2 ==> parts[0] + [','] + parts[1] == s && ',' !in parts[0]
  {
    match IndexOf(s, ',')
    case None => [s]
    case Some(i) =>
      assert s[..i] + [','] + s[i + 1..] == s;
      [s[..i], s[i + 1..]]
  }

  /** `toUpperCase(Locale.US)` on the characters whose upper case can be a letter of
      "ASC" or "DESC": the ASCII small letters and U+017F (long s, upper case 'S').
      Every other character is kept, which decides the same equality with those two
      words. */
  function UpperCase(c: char): (u: char)
    ensures 'a' <= c <= 'z' ==> u as int == c as int - 32
    ensures c == 'ſ' ==> u == 'S'
    ensures !('a' <= c <= 'z') && c != 'ſ' ==> u == c
  {
    if 'a' <= c <= 'z' then (c as int - 32) as char
    else if c == 'ſ' then 'S'
    else c
  }

  /** `s.toUpperCase(Locale.US).equals(word)` for an upper-case ASCII `word`. */
  predicate EqualsIgnoringCase(s: string, word: string) {
    |s| == |word| && forall i | 0 <= i < |s| :: UpperCase(s[i]) == word[i]
  }

  lemma {:induction false} TrimStartAt(s: string, i: nat, lo: nat)
    requires i <= lo < |s| && !IsTrimmed(s[lo])
    requires forall j | i <= j < lo :: IsTrimmed(s[j])
    ensures TrimStart(s, i) == lo
    decreases lo - i
  {
    if i < lo {
      TrimStartAt(s, i + 1, lo);
    }
  }

  lemma {:induction false} TrimEndAt(s: string, lo: nat, j: nat, hi: nat)
    requires lo < hi <= j <= |s| && !IsTrimmed(s[hi - 1])
    requires forall m | hi <= m < j :: IsTrimmed(s[m])
    ensures TrimEnd(s, lo, j) == hi
    decreases j
  {
    if hi < j {
      TrimEndAt(s, lo, j - 1, hi);
    }
  }

  /** `trim()` keeps exactly the slice between the padding it removes. */
  lemma TrimPadding(s: string, lo: nat, hi: nat)
    requires lo < hi <= |s| && !IsTrimmed(s[lo]) && !IsTrimmed(s[hi - 1])
    requires forall j | 0 <= j < lo :: IsTrimmed(s[j])
    requires forall j | hi <= j < |s| :: IsTrimmed(s[j])
    ensures Trim(s) == s[lo..hi]
  {
    TrimStartAt(s, 0, lo);
    TrimEndAt(s, lo, |s|, hi);
  }

  /** `trim()` keeps every character above U+0020. */
  lemma TrimKeeps(s: string, i: nat)
    requires i < |s| && !IsTrimmed(s[i])
    ensures s[i] in Trim(s)
  {
    var lo := TrimStart(s, 0);
    var hi := TrimEnd(s, lo, |s|);
    assert lo <= i < hi;
    assert s[lo..hi][i - lo] == s[i];
  }

  /** Trimming twice is trimming once. */
  lemma TrimIdempotent(s: string)
    ensures Trim(Trim(s)) == Trim(s)
  {
    var t := Trim(s);
    if t != [] {
      assert TrimStart(t, 0) == 0;
      assert TrimEnd(t, 0, |t|) == |t|;
    }
  }
}
