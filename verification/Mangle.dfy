/** Renaming after a conflict: a number at the end of the name is counted up. */
module Mangle {
  import opened Octets

  const DASH: byte := 45
  const PLUS: byte := 43
  const TWO: byte := 50
  /** The largest long and int of the 32-bit target. */
  const INT_MAX := 0x7FFF_FFFF

  // ---------------------------------------------------------------------
  // Decimal numbers.

  predicate IsDigit(b: byte) {
    48 <= b <= 57
  }

  ghost predicate AllDigits(t: seq<byte>) {
    forall i :: 0 <= i < |t| ==> IsDigit(t[i])
  }

  function Value(t: seq<byte>): nat {
    if t == [] then 0
    else
      var d: int := t[|t| - 1];
      10 * Value(t[..|t| - 1]) + if IsDigit(t[|t| - 1]) then d - 48 else 0
  }

  /** %d of a number that is not negative. */
  function Itoa(n: nat): seq<byte> {
    if n < 10 then [48 + n] else Itoa(n / 10) + [48 + n % 10]
  }

  /** Printing and reading a number. */
  lemma {:induction false} ItoaValue(n: nat)
    ensures AllDigits(Itoa(n)) && Itoa(n) != [] && Value(Itoa(n)) == n
  {
    if n >= 10 {
      ItoaValue(n / 10);
      assert Itoa(n)[..|Itoa(n)| - 1] == Itoa(n / 10);
    } else {
      assert [48 + n][..0] == [];
    }
  }

  /** A number prints in at most as many digits as any numeral that is no smaller. */
  lemma {:induction false} ItoaLength(n: nat, t: seq<byte>)
    requires AllDigits(t) && t != [] && n <= Value(t)
    ensures |Itoa(n)| <= |t|
    decreases |t|
  {
    var front := t[..|t| - 1];
    if front == [] {
      assert Value(t) <= 9;
    } else if n >= 10 {
      assert n / 10 <= Value(front);
      ItoaLength(n / 10, front);
    }
  }

  /** Counting up takes at most one more digit. */
  lemma NextLength(t: seq<byte>)
    requires AllDigits(t)
    ensures |Itoa(Value(t) + 1)| <= |t| + 1
  {
    var longer := t + [57];
    assert longer[..|t|] == t;
    ItoaLength(Value(t) + 1, longer);
  }

  // ---------------------------------------------------------------------
  // strrchr and strtol.

  /** Index of the last '-', or the length. */
  function LastDash(s: seq<byte>): (p: nat)
    ensures p <= |s|
  {
    if s == [] then 0
    else
      var p := LastDash(s[1..]);
      if p < |s| - 1 then p + 1
      else if s[0] == DASH then 0
      else |s|
  }

  predicate IsSpace(b: byte) {
    b == 32 || 9 <= b <= 13
  }

  function Spaces(t: seq<byte>): (n: nat)
    ensures n <= |t|
  {
    if t == [] || !IsSpace(t[0]) then 0 else Spaces(t[1..]) + 1
  }

  function Digits(t: seq<byte>): (n: nat)
    ensures n <= |t|
  {
    if t == [] || !IsDigit(t[0]) then 0 else Digits(t[1..]) + 1
  }

  lemma {:induction false} DigitsAre(t: seq<byte>)
    ensures AllDigits(t[..Digits(t)])
  {
    if t != [] && IsDigit(t[0]) {
      DigitsAre(t[1..]);
      assert t[..Digits(t)] == [t[0]] + t[1..][..Digits(t[1..])];
    }
  }

  /** strtol in base 10, on text without '-': the number, no greater than a long can hold, and
      where the text goes on. Without any digit nothing is consumed. */
  function StrToL(t: seq<byte>): (r: (nat, nat))
    ensures r.0 <= INT_MAX && r.1 <= |t|
  {
    var i := Spaces(t);
    var j := if i < |t| && t[i] == PLUS then i + 1 else i;
    var d := Digits(t[j..]);
    if d == 0 then (0, 0)
    else
      var v := Value(t[j..j + d]);
      (if v > INT_MAX then INT_MAX else v, j + d)
  }

  /** The text is nothing, or white space, perhaps a '+', and digits. */
  ghost predicate LooksNumeric(t: seq<byte>, i: int, j: int) {
    && 0 <= i <= j <= |t| && (forall k :: 0 <= k < i ==> t[k] == 32 || 9 <= t[k] <= 13)
    && (j == i || (j == i + 1 && t[i] == 43)) && (forall k :: j <= k < |t| ==> 48 <= t[k] <= 57)
    && (t == [] || j < |t|)
  }

  ghost predicate IsNumeric(t: seq<byte>) {
    exists i, j :: LooksNumeric(t, i, j)
  }

  lemma {:induction false} SpacesAre(t: seq<byte>, i: int)
    requires 0 <= i <= |t| && (forall k :: 0 <= k < i ==> IsSpace(t[k])) && (i < |t| ==> !IsSpace(t[i]))
    ensures Spaces(t) == i
    decreases i
  {
    if i > 0 {
      SpacesAre(t[1..], i - 1);
    }
  }

  lemma {:induction false} SpacesEnd(t: seq<byte>)
    ensures var i := Spaces(t);
      (forall k :: 0 <= k < i ==> IsSpace(t[k])) && (i < |t| ==> !IsSpace(t[i]))
  {
    if t != [] && IsSpace(t[0]) {
      SpacesEnd(t[1..]);
      assert forall k :: 0 < k < |t| ==> t[k] == t[1..][k - 1];
    }
  }

  /** strtol takes up the whole text exactly then; its value is that of the digits, or the
      largest int. */
  lemma TakesAll(t: seq<byte>)
    ensures StrToL(t).1 == |t| <==> IsNumeric(t)
    ensures forall i, j :: LooksNumeric(t, i, j) && t != [] ==>
      StrToL(t).0 == if Value(t[j..]) > 0x7FFF_FFFF then 0x7FFF_FFFF else Value(t[j..])
  {
    SpacesEnd(t);
    var i := Spaces(t);
    var j := if i < |t| && t[i] == PLUS then i + 1 else i;
    DigitsAre(t[j..]);
    if StrToL(t).1 == |t| {
      TextIsNumeric(t, i, j);
    }
    forall i, j | LooksNumeric(t, i, j)
      ensures StrToL(t).1 == |t|
      ensures t != [] ==> StrToL(t).0 == if Value(t[j..]) > 0x7FFF_FFFF then 0x7FFF_FFFF else Value(t[j..])
    {
      NumericIsTaken(t, i, j);
    }
  }

  lemma TextIsNumeric(t: seq<byte>, i: nat, j: nat)
    requires i == Spaces(t) && j == (if i < |t| && t[i] == PLUS then i + 1 else i) && StrToL(t).1 == |t|
    requires (forall k :: 0 <= k < i ==> IsSpace(t[k])) && AllDigits(t[j..][..Digits(t[j..])])
    ensures if t == [] then LooksNumeric(t, 0, 0) else LooksNumeric(t, i, j)
  {
    hide Value, Spaces, Digits;
    if t != [] {
      var d := Digits(t[j..]);
      assert d != 0 && j + d == |t|;
      assert t[j..][..d] == t[j..];
      assert forall k :: j <= k < |t| ==> t[k] == t[j..][k - j];
    }
  }

  lemma NumericIsTaken(t: seq<byte>, i: int, j: int)
    requires LooksNumeric(t, i, j)
    ensures StrToL(t).1 == |t|
    ensures t != [] ==> StrToL(t).0 == if Value(t[j..]) > 0x7FFF_FFFF then 0x7FFF_FFFF else Value(t[j..])
  {
    if t != [] {
      SpacesAre(t, i);
      DigitsAll(t[j..]);
      assert t[j..j + |t[j..]|] == t[j..];
    }
  }

  // ---------------------------------------------------------------------
  // `_mdns_mangle_name`.

  /** %d of suffix + 1, which wraps at the largest int. */
  function NextText(v: nat): seq<byte>
    requires v <= INT_MAX
  {
    if v == INT_MAX then [DASH] + Itoa(INT_MAX + 1) else Itoa(v + 1)
  }

  /** The name ends in '-' and a number. */
  predicate Numbered(s: seq<byte>) {
    var p := LastDash(s);
    p < |s| && StrToL(s[p + 1..]).1 == |s| - p - 1
  }

  function MangleName(s: seq<byte>): seq<byte> {
    if Numbered(s) then s[..LastDash(s)] + ([DASH] + NextText(StrToL(s[LastDash(s) + 1..]).0))
    else s + [DASH, TWO]
  }

  /** The name in front of the number, and the number; a name without one counts as number 1. */
  function Stem(s: seq<byte>): (r: (seq<byte>, nat))
    ensures r.1 <= INT_MAX
  {
    if Numbered(s) then (s[..LastDash(s)], StrToL(s[LastDash(s) + 1..]).0) else (s, 1)
  }

  /** A name is numbered exactly if its text behind the last '-' is nothing or a number ... */
  lemma NumberedMeans(s: seq<byte>, p: nat)
    requires p < |s| && s[p] == 45 && 45 !in s[p + 1..]
    ensures Numbered(s) <==> IsNumeric(s[p + 1..])
  {
    hide StrToL, IsNumeric;
    LastDashIs(s[..p], s[p + 1..]);
    assert s[..p] + [DASH] + s[p + 1..] == s;
    TakesAll(s[p + 1..]);
  }

  /** ... and a name without a '-' is not; a name that is not gets "-2". */
  lemma PlainNames(s: seq<byte>)
    ensures 45 !in s ==> !Numbered(s)
    ensures !Numbered(s) ==> MangleName(s) == s + [45, 50]
  {
    if 45 !in s {
      NoDash(s);
    }
  }

  /** In both forms the number is counted up. */
  lemma MangleCountsUp(s: seq<byte>)
    requires Stem(s).1 < INT_MAX
    ensures MangleName(s) == Stem(s).0 + [DASH] + Itoa(Stem(s).1 + 1)
  {
    TwoText();
    hide LastDash, StrToL, Itoa;
  }

  lemma TwoText()
    ensures Itoa(2) == [TWO]
  {
  }

  /** A number that was printed behind a '-' is found again. */
  lemma StemOfNumbered(base: seq<byte>, n: nat)
    requires n <= INT_MAX
    ensures Stem(base + [DASH] + Itoa(n)) == (base, n)
  {
    var t, s := Itoa(n), base + [DASH] + Itoa(n);
    ItoaValue(n);
    assert DASH !in t;
    LastDashIs(base, t);
    assert s[|base| + 1..] == t && s[..|base|] == base;
    hide LastDash, Itoa, Value, StrToL;
    DigitsRead(t);
  }

  lemma DigitsRead(t: seq<byte>)
    requires AllDigits(t) && t != []
    ensures StrToL(t) == (if Value(t) > INT_MAX then INT_MAX else Value(t), |t|)
  {
    DigitsAll(t);
    hide Value, Digits;
    assert IsDigit(t[0]);
    assert Spaces(t) == 0 && t[0..] == t && t[..|t|] == t;
  }

  lemma {:induction false} LastDashIs(base: seq<byte>, t: seq<byte>)
    requires DASH !in t
    ensures LastDash(base + [DASH] + t) == |base|
  {
    var s := base + [DASH] + t;
    if base == [] {
      assert s[1..] == t;
      NoDash(t);
    } else {
      assert s[1..] == base[1..] + [DASH] + t;
      LastDashIs(base[1..], t);
    }
  }

  lemma {:induction false} NoDash(t: seq<byte>)
    requires DASH !in t
    ensures LastDash(t) == |t|
  {
    if t != [] {
      NoDash(t[1..]);
    }
  }

  lemma {:induction false} DigitsAll(t: seq<byte>)
    requires AllDigits(t)
    ensures Digits(t) == |t|
  {
    if t != [] {
      DigitsAll(t[1..]);
    }
  }

  /** The name after n conflicts. */
  function Renamed(s: seq<byte>, n: nat): seq<byte> {
    if n == 0 then s else MangleName(Renamed(s, n - 1))
  }

  /** The names that a name goes through: its number counted up. */
  lemma {:induction false} RenamedIs(s: seq<byte>, n: nat)
    requires 0 < n && Stem(s).1 + n <= INT_MAX
    ensures Renamed(s, n) == Stem(s).0 + [DASH] + Itoa(Stem(s).1 + n)
    decreases n
  {
    hide Stem, Itoa, MangleName;
    if n == 1 {
      assert Renamed(s, 0) == s;
    } else {
      RenamedIs(s, n - 1);
      StemOfNumbered(Stem(s).0, Stem(s).1 + n - 1);
    }
    MangleCountsUp(Renamed(s, n - 1));
  }

  /** "-2147483648": what follows the largest int. */
  const LEAST: seq<byte> := [45, 50, 49, 52, 55, 52, 56, 51, 54, 52, 56]

  function Dashes(n: nat): seq<byte> {
    seq(n, _ => 45)
  }

  lemma OneDigit(n: nat, d: nat)
    requires n > 0 && d < 10
    ensures Itoa(10 * n + d) == Itoa(n) + [48 + d]
  {
  }

  lemma LeastText()
    ensures LEAST == [DASH] + Itoa(INT_MAX + 1)
  {
    hide Itoa;
    TwoText();
    OneDigit(2, 1);
    OneDigit(21, 4);
    OneDigit(214, 7);
    OneDigit(2147, 4);
    OneDigit(21474, 8);
    OneDigit(214748, 3);
    OneDigit(2147483, 6);
    OneDigit(21474836, 4);
    OneDigit(214748364, 8);
  }

  /** The number wraps, and another dash comes in front of it. */
  lemma MangleWraps(s: seq<byte>)
    requires Stem(s).1 == INT_MAX
    ensures MangleName(s) == Stem(s).0 + Dashes(1) + LEAST
  {
    LeastText();
    hide LastDash, StrToL, Itoa;
    assert Dashes(1) == [DASH];
  }

  /** Behind the last dash 2147483648 reads as the largest int. */
  lemma StemOfLeast(base: seq<byte>)
    ensures Stem(base + LEAST) == (base, INT_MAX)
  {
    var t, s := Itoa(INT_MAX + 1), base + LEAST;
    LeastText();
    ItoaValue(INT_MAX + 1);
    assert DASH !in t && s == base + [DASH] + t;
    LastDashIs(base, t);
    assert s[|base| + 1..] == t && s[..|base|] == base;
    hide LastDash, Itoa, Value, StrToL;
    DigitsRead(t);
  }

  /** From there on the names grow by one dash each time. */
  lemma {:induction false} RenamedBeyond(s: seq<byte>, n: nat)
    requires Stem(s).1 + n > INT_MAX
    ensures Renamed(s, n) == Stem(s).0 + Dashes(Stem(s).1 + n - INT_MAX) + LEAST
    decreases n
  {
    hide Stem, Itoa, MangleName;
    var base, j := Stem(s).0, Stem(s).1 + n - INT_MAX;
    if j == 1 {
      StemBelow(s, n - 1);
    } else {
      RenamedBeyond(s, n - 1);
      StemOfLeast(base + Dashes(j - 1));
    }
    MangleWraps(Renamed(s, n - 1));
    assert base + Dashes(j - 1) + Dashes(1) + LEAST == base + Dashes(j) + LEAST;
  }

  lemma StemBelow(s: seq<byte>, n: nat)
    requires Stem(s).1 + n <= INT_MAX
    ensures Stem(Renamed(s, n)) == (Stem(s).0, Stem(s).1 + n)
  {
    hide Stem, Itoa, MangleName;
    if n > 0 {
      RenamedIs(s, n);
      StemOfNumbered(Stem(s).0, Stem(s).1 + n);
    }
  }

  /** No name ever comes back. */
  lemma NamesNeverRepeat(s: seq<byte>, m: nat, n: nat)
    requires m < n
    ensures Renamed(s, m) != Renamed(s, n)
  {
    hide Stem, Renamed;
    if Stem(s).1 + n <= INT_MAX {
      StemBelow(s, n);
    } else {
      RenamedBeyond(s, n);
      StemOfLeast(Stem(s).0 + Dashes(Stem(s).1 + n - INT_MAX));
    }
    if Stem(s).1 + m <= INT_MAX {
      StemBelow(s, m);
    } else {
      RenamedBeyond(s, m);
    }
  }

  /** The new name and its NUL fit what was allocated, for every name. */
  lemma MangleFits(s: seq<byte>)
    ensures |MangleName(s)| + 1 <= |s| + if Numbered(s) then 2 else 3
  {
    hide LastDash, StrToL, NextText;
    if Numbered(s) {
      NextFits(s[LastDash(s) + 1..]);
    }
  }

  lemma TenTimes(n: nat)
    requires n >= 10
    ensures |Itoa(n)| == |Itoa(n / 10)| + 1
  {
  }

  /** The text of the next number is at most one byte longer than what was read. */
  lemma NextFits(t: seq<byte>)
    requires StrToL(t).1 == |t|
    ensures |NextText(StrToL(t).0)| <= |t| + 1
  {
    hide Itoa, Value, Digits, Spaces;
    var i := Spaces(t);
    var j := if i < |t| && t[i] == PLUS then i + 1 else i;
    var d := Digits(t[j..]);
    if d == 0 {
      OneText();
    } else {
      DigitsAre(t[j..]);
      assert t[j..j + d] == t[j..][..d];
      NextOfDigits(t[j..j + d]);
    }
  }

  lemma NextOfDigits(digits: seq<byte>)
    requires AllDigits(digits) && digits != []
    ensures |NextText(if Value(digits) > INT_MAX then INT_MAX else Value(digits))| <= |digits| + 1
  {
    hide Itoa, Value;
    if Value(digits) >= INT_MAX {
      ItoaLength(INT_MAX, digits);
      TenTimes(INT_MAX);
      TenTimes(INT_MAX + 1);
    } else {
      NextLength(digits);
    }
  }

  lemma OneText()
    ensures |Itoa(1)| == 1
  {
  }

  // ---------------------------------------------------------------------
  // In the allocated buffer.

  /** strcpy and sprintf: text and its NUL at offset at. */
  method Print(buffer: array<byte>, at: nat, text: seq<byte>)
    requires at + |text| < buffer.Length
    modifies buffer
    ensures buffer[..at + |text|] == old(buffer[..at]) + text && buffer[at + |text|] == 0
  {
    var i := 0;
    while i < |text|
      invariant i <= |text| && buffer[..at + i] == old(buffer[..at]) + text[..i]
    {
      buffer[at + i] := text[i];
      assert buffer[..at + i + 1] == buffer[..at + i] + [text[i]];
      assert text[..i + 1] == text[..i] + [text[i]];
      i := i + 1;
    }
    assert text[..|text|] == text;
    buffer[at + |text|] := 0;
  }

  method Rename(s: seq<byte>) returns (ret: array<byte>)
    requires NulFree(s)
    ensures fresh(ret) && ret.Length == |s| + (if Numbered(s) then 2 else 3)
    ensures CStr(ret[..]) == MangleName(s)
  {
    MangleFits(s);
    MangledNulFree(s);
    var p := LastDash(s);
    hide LastDash, StrToL, NextText, CStr, NulFree;
    if Numbered(s) {
      ret := Overwritten(s, p, [DASH] + NextText(StrToL(s[p + 1..]).0), |s| + 2);
    } else {
      ret := Overwritten(s, |s|, [DASH, TWO], |s| + 3);
    }
  }

  /** The name, overwritten from p on. */
  method Overwritten(s: seq<byte>, p: nat, text: seq<byte>, size: nat) returns (ret: array<byte>)
    requires p <= |s| < size && p + |text| < size && NulFree(s[..p] + text)
    ensures fresh(ret) && ret.Length == size && CStr(ret[..]) == s[..p] + text
  {
    ret := new byte[size];
    Print(ret, 0, s);
    assert ret[..p] == ret[..|s|][..p] == s[..p];
    Print(ret, p, text);
    Terminated(ret[..], s[..p] + text);
  }

  lemma Terminated(buffer: seq<byte>, t: seq<byte>)
    requires |t| < |buffer| && buffer[..|t|] == t && buffer[|t|] == 0 && NulFree(t)
    ensures CStr(buffer) == t
  {
    assert forall k :: 0 <= k < |t| ==> buffer[k] == buffer[..|t|][k];
    CStrIs(buffer, t);
  }

  lemma MangledNulFree(s: seq<byte>)
    requires NulFree(s)
    ensures NulFree(MangleName(s))
  {
    hide NextText, LastDash, StrToL;
    if Numbered(s) {
      NextNulFree(StrToL(s[LastDash(s) + 1..]).0);
    }
  }

  lemma NextNulFree(v: nat)
    requires v <= INT_MAX
    ensures NulFree(NextText(v))
  {
    ItoaValue(v + 1);
    hide Itoa, Value;
  }
}
