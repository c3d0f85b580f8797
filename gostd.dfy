/** The few Go standard-library functions the command engine relies on:
    `strings.Join`, `strings.HasSuffix`, `path.Base` and `strconv.Atoi`.
    `Join` is paired with `strings.Split` and `Atoi` with `strconv.Itoa`, each
    by a round-trip lemma; `Base` has a lemma about the base of `dir/name`.
    Go strings are byte strings; every character used here is ASCII. */
module GoStd {
  import opened Wrappers

  /** `strings.Join(parts, string(sep))`. */
  function Join(parts: seq<string>, sep: char): (r: string)
    ensures |parts| > 0 ==> |parts[0]| <= |r| && r[..|parts[0]|] == parts[0]
    ensures |parts| > 1 ==> sep in r
  {
    if |parts| == 0 then ""
    else if |parts| == 1 then parts[0]
    else parts[0] + [sep] + Join(parts[1..], sep)
  }

  /** `strings.Split(s, string(sep))`: the pieces between separators; at least
      one piece, even for the empty string. */
  function SplitOn(s: string, sep: char): (r: seq<string>)
    ensures |r| > 0
  {
    if s == [] then [""]
    else if s[0] == sep then [""] + SplitOn(s[1..], sep)
    else var rest := SplitOn(s[1..], sep); [[s[0]] + rest[0]] + rest[1..]
  }

  /** Splitting a separator-free prefix followed by a tail glues the prefix
      onto the tail's first piece. */
  lemma {:induction false} SplitOnPrefix(x: string, tail: string, sep: char)
    requires sep !in x
    ensures var rest := SplitOn(tail, sep);
      SplitOn(x + tail, sep) == [x + rest[0]] + rest[1..]
  {
    if x != [] {
      assert (x + tail)[1..] == x[1..] + tail;
      assert (x + tail)[0] == x[0];
      SplitOnPrefix(x[1..], tail, sep);
      assert [x[0]] + (x[1..] + SplitOn(tail, sep)[0]) == x + SplitOn(tail, sep)[0];
    } else {
      var rest := SplitOn(tail, sep);
      assert x + tail == tail && x + rest[0] == rest[0];
      assert [rest[0]] + rest[1..] == rest;
    }
  }

  /** Splitting undoes joining when no part contains the separator and there is
      at least one part. */
  lemma {:induction false} SplitOnJoin(parts: seq<string>, sep: char)
    requires |parts| > 0
    requires forall i :: 0 <= i < |parts| ==> sep !in parts[i]
    ensures SplitOn(Join(parts, sep), sep) == parts
  {
    if |parts| == 1 {
      SplitOnPrefix(parts[0], "", sep);
      assert parts[0] + "" == parts[0];
    } else {
      var tail := [sep] + Join(parts[1..], sep);
      assert Join(parts, sep) == parts[0] + tail;
      SplitOnPrefix(parts[0], tail, sep);
      assert tail[0] == sep && tail[1..] == Join(parts[1..], sep);
      assert SplitOn(tail, sep) == [""] + SplitOn(Join(parts[1..], sep), sep);
      assert parts[0] + "" == parts[0];
      SplitOnJoin(parts[1..], sep);
      assert parts == [parts[0]] + parts[1..];
    }
  }

  /** Join is injective on non-empty lists of separator-free parts. */
  lemma JoinInjective(a: seq<string>, b: seq<string>, sep: char)
    requires |a| > 0 && |b| > 0
    requires forall i :: 0 <= i < |a| ==> sep !in a[i]
    requires forall i :: 0 <= i < |b| ==> sep !in b[i]
    ensures Join(a, sep) == Join(b, sep) <==> a == b
  {
    if Join(a, sep) == Join(b, sep) {
      SplitOnJoin(a, sep);
      SplitOnJoin(b, sep);
    }
  }

  /** `strings.HasSuffix(s, suffix)`. */
  predicate HasSuffix(s: string, suffix: string) {
    |suffix| <= |s| && s[|s| - |suffix|..] == suffix
  }

  /** `s` with every trailing `/` removed. */
  function TrimTrailingSlashes(s: string): (r: string)
    ensures |r| <= |s| && r == s[..|r|]
    ensures r == [] || r[|r| - 1] != '/'
  {
    if |s| > 0 && s[|s| - 1] == '/' then TrimTrailingSlashes(s[..|s| - 1]) else s
  }

  /** The part of `s` after its last `/` (all of `s` when it has none). */
  function AfterLastSlash(s: string): (r: string)
    ensures '/' !in r
    ensures |r| <= |s| && r == s[|s| - |r|..]
    ensures |r| < |s| ==> s[|s| - |r| - 1] == '/'
  {
    if s == [] || s[|s| - 1] == '/' then ""
    else AfterLastSlash(s[..|s| - 1]) + [s[|s| - 1]]
  }

  /** `path.Base(p)`: "." for the empty path, "/" for a path of slashes only,
      otherwise the last element once trailing slashes are removed. */
  function Base(p: string): (r: string)
    ensures r != ""
    ensures '/' in r ==> r == "/"
    ensures p == "" ==> r == "."
  {
    if p == "" then "."
    else
      var last := AfterLastSlash(TrimTrailingSlashes(p));
      if last == "" then "/" else last
  }

  /** The base of `dir/name` is `name` when `name` is a plain, non-empty element. */
  lemma BaseOfChild(dir: string, name: string)
    requires name != "" && '/' !in name
    ensures Base(dir + "/" + name) == name
  {
    var p := dir + "/" + name;
    assert p[|p| - 1] == name[|name| - 1];
    assert TrimTrailingSlashes(p) == p;
    AfterLastSlashOfChild(dir + "/", name);
  }

  lemma {:induction false} AfterLastSlashOfChild(dir: string, name: string)
    requires |dir| > 0 && dir[|dir| - 1] == '/' && '/' !in name
    ensures AfterLastSlash(dir + name) == name
  {
    if name == [] {
      assert dir + name == dir;
    } else {
      var p := dir + name;
      assert p[..|p| - 1] == dir + name[..|name| - 1];
      AfterLastSlashOfChild(dir, name[..|name| - 1]);
      assert name == name[..|name| - 1] + [name[|name| - 1]];
    }
  }

  // ---- strconv.Atoi and strconv.Itoa, with Go's 64-bit `int` ----

  const MinInt: int := -0x8000_0000_0000_0000
  const MaxInt: int := 0x7FFF_FFFF_FFFF_FFFF

  predicate IsDigit(c: char) { '0' <= c <= '9' }

  predicate AllDigits(s: string) {
    forall i :: 0 <= i < |s| ==> IsDigit(s[i])
  }

  /** The value of a string of decimal digits. */
  function DigitsValue(s: string): (n: nat)
    requires AllDigits(s)
  {
    if s == [] then 0
    else DigitsValue(s[..|s| - 1]) * 10 + (s[|s| - 1] as int - '0' as int)
  }

  /** The decimal digits of `n`, most significant first, without leading zeros. */
  function FormatNat(n: nat): (s: string)
    ensures |s| > 0 && AllDigits(s)
    ensures |s| > 1 ==> s[0] != '0'
  {
    if n < 10 then [('0' as int + n) as char]
    else FormatNat(n / 10) + [('0' as int + n % 10) as char]
  }

  lemma {:induction false} DigitsValueOfFormatNat(n: nat)
    ensures DigitsValue(FormatNat(n)) == n
  {
    if n >= 10 {
      var s := FormatNat(n);
      assert s[..|s| - 1] == FormatNat(n / 10);
      DigitsValueOfFormatNat(n / 10);
    }
  }

  /** `strconv.Atoi(s)`: an optional sign followed by one or more decimal digits
      whose value fits in a 64-bit `int`; anything else is an error. */
  function Atoi(s: string): (r: Result<int>)
    ensures r.Ok? ==> MinInt <= r.value <= MaxInt
    ensures s == "" ==> r.Err?
  {
    var hasSign := |s| > 0 && (s[0] == '-' || s[0] == '+');
    var digits := if hasSign then s[1..] else s;
    if digits == [] || !AllDigits(digits) then Err(Error("invalid syntax"))
    else
      var v: int := if |s| > 0 && s[0] == '-' then 0 - DigitsValue(digits) else DigitsValue(digits);
      if MinInt <= v <= MaxInt then Ok(v) else Err(Error("value out of range"))
  }

  /** `strconv.Itoa(n)`. */
  function Itoa(n: int): (s: string)
  {
    if n < 0 then "-" + FormatNat(-n) else FormatNat(n)
  }

  /** Parsing what `Itoa` prints gives the number back. */
  lemma AtoiItoa(n: int)
    requires MinInt <= n <= MaxInt
    ensures Atoi(Itoa(n)) == Ok(n)
  {
    var s := Itoa(n);
    if n < 0 {
      var f := FormatNat(-n);
      assert s == "-" + f && s[0] == '-' && s[1..] == f;
      DigitsValueOfFormatNat(-n);
      assert DigitsValue(f) == -n;
    } else {
      var f := FormatNat(n);
      assert s == f && IsDigit(f[0]);
      DigitsValueOfFormatNat(n);
      assert DigitsValue(f) == n;
    }
  }
}
