/**
 The hard denylist: every mapped string loses its SSN patterns and its card numbers. Both passes are
 global regular-expression replacements, modelled as scans from left to right; `afterWord` says whether
 the character before the rest of the text is a word character, which is what `\b` looks back at.
 */
module Denylist {
  import opened Prelude
  import opened Json
  import opened Digits

  const REDACTED := "[REDACTED]"
  const SSN_CHARS := 11
  const PAN_MIN := 13
  const PAN_MAX := 19

  predicate IsWord(c: char) {
    IsDigit(c) || 'a' <= c <= 'z' || 'A' <= c <= 'Z' || c == '_'
  }

  predicate IsSeparator(c: char) {
    c == ' ' || c == '-'
  }

  /** `\b` right after a word character. */
  predicate WordEnds(rest: string) {
    rest == "" || !IsWord(rest[0])
  }

  // ---- social security numbers: /\b\d{3}-\d{2}-\d{4}\b/g ----

  predicate SsnShape(s: string) {
    && |s| >= SSN_CHARS
    && IsDigit(s[0]) && IsDigit(s[1]) && IsDigit(s[2]) && s[3] == '-'
    && IsDigit(s[4]) && IsDigit(s[5]) && s[6] == '-'
    && IsDigit(s[7]) && IsDigit(s[8]) && IsDigit(s[9]) && IsDigit(s[10])
  }

  predicate SsnMatch(afterWord: bool, s: string) {
    !afterWord && SsnShape(s) && WordEnds(s[SSN_CHARS..])
  }

  function RedactSsn(afterWord: bool, s: string): string
    decreases |s|
  {
    if s == "" then ""
    else if SsnMatch(afterWord, s) then REDACTED + RedactSsn(true, s[SSN_CHARS..])
    else [s[0]] + RedactSsn(IsWord(s[0]), s[1..])
  }

  // ---- card numbers: /\b\d(?:[ -]?\d){12,18}\b/g ----

  /**
   With `k` digits matched, how many more characters the longest match takes. The repetition is greedy
   and gives digits back until the text after it is not a word character.
   */
  function Greedy(rest: string, k: nat): Option<nat>
    decreases |rest|
  {
    var here := if PAN_MIN <= k <= PAN_MAX && WordEnds(rest) then Some(0) else None;
    if k >= PAN_MAX then here
    else if |rest| > 0 && IsDigit(rest[0]) then
      var more := Greedy(rest[1..], k + 1);
      if more.Some? then Some(more.value + 1) else here
    else if |rest| > 1 && IsSeparator(rest[0]) && IsDigit(rest[1]) then
      var more := Greedy(rest[2..], k + 1);
      if more.Some? then Some(more.value + 2) else here
    else here
  }

  /** The length of the candidate that starts here. */
  function PanMatch(afterWord: bool, s: string): Option<nat> {
    if !afterWord && s != "" && IsDigit(s[0]) then
      var more := Greedy(s[1..], 1);
      if more.Some? then Some(more.value + 1) else None
    else None
  }

  lemma {:induction false} GreedyEnds(rest: string, k: nat)
    requires Greedy(rest, k).Some?
    ensures var n := Greedy(rest, k).value;
            && n <= |rest| && WordEnds(rest[n..]) && (n > 0 ==> IsDigit(rest[n - 1]))
    decreases |rest|
  {
    if k < PAN_MAX {
      if |rest| > 0 && IsDigit(rest[0]) {
        if Greedy(rest[1..], k + 1).Some? {
          GreedyEnds(rest[1..], k + 1);
        }
      } else if |rest| > 1 && IsSeparator(rest[0]) && IsDigit(rest[1]) {
        if Greedy(rest[2..], k + 1).Some? {
          GreedyEnds(rest[2..], k + 1);
        }
      }
    }
  }

  lemma PanMatchEnds(afterWord: bool, s: string)
    requires PanMatch(afterWord, s).Some?
    ensures var n := PanMatch(afterWord, s).value;
            0 < n <= |s| && IsDigit(s[n - 1]) && IsDigit(s[0]) && WordEnds(s[n..])
  {
    var rest := s[1..];
    GreedyEnds(rest, 1);
    var more := Greedy(rest, 1).value;
    assert s[more + 1..] == rest[more..];
    assert more > 0 ==> s[more] == rest[more - 1];
  }

  /** `candidate.replace(/[ -]/g, '')` */
  function DigitsOf(candidate: string): string
    decreases |candidate|
  {
    if candidate == "" then ""
    else (if IsSeparator(candidate[0]) then "" else [candidate[0]]) + DigitsOf(candidate[1..])
  }

  // ---- the Luhn check (ISO/IEC 7812-1, annex B) ----

  function LuhnDigit(c: char, double: bool): int {
    var d := c as int - '0' as int;
    if !double then d else if 2 * d > 9 then 2 * d - 9 else 2 * d
  }

  /** The Luhn sum, the last digit doubled or not. */
  function LuhnSum(s: string, double: bool): int
    decreases |s|
  {
    if s == "" then 0
    else LuhnDigit(s[|s| - 1], double) + LuhnSum(s[..|s| - 1], !double)
  }

  predicate LuhnValid(digits: string) {
    LuhnSum(digits, false) % 10 == 0
  }

  method CheckLuhn(digits: string) returns (valid: bool)
    ensures valid == LuhnValid(digits)
  {
    var sum := 0;
    var double := false;
    var i := |digits| - 1;
    assert digits[..|digits|] == digits;
    while i >= 0
      invariant -1 <= i < |digits|
      invariant sum + LuhnSum(digits[..i + 1], double) == LuhnSum(digits, false)
    {
      var d := digits[i] as int - '0' as int;
      if double {
        d := d * 2;
        if d > 9 {
          d := d - 9;
        }
      }
      assert digits[..i + 1][..i] == digits[..i];
      sum := sum + d;
      double := !double;
      i := i - 1;
    }
    return sum % 10 == 0;
  }

  lemma {:induction false} LuhnSumAt(s: string, double: bool, i: nat, c: char)
    requires i < |s|
    ensures var doubled := if (|s| - 1 - i) % 2 == 0 then double else !double;
            LuhnSum(s[i := c], double) - LuhnSum(s, double) == LuhnDigit(c, doubled) - LuhnDigit(s[i], doubled)
    decreases |s|
  {
    var last := |s| - 1;
    if i < last {
      assert s[i := c][..last] == s[..last][i := c];
      LuhnSumAt(s[..last], !double, i, c);
    } else {
      assert s[i := c][..last] == s[..last];
    }
  }

  /** Doubling, as Luhn does it, keeps different digits apart, and by less than ten. */
  lemma LuhnDigitsDiffer(c: char, d: char, double: bool)
    requires IsDigit(c) && IsDigit(d) && c != d
    ensures LuhnDigit(c, double) != LuhnDigit(d, double) && -9 <= LuhnDigit(c, double) - LuhnDigit(d, double) <= 9
  {
  }

  /** A multiple of ten moved by less than ten is none. */
  lemma NextToTen(a: int, b: int)
    requires a % 10 == 0 && a != b && -9 <= b - a <= 9
    ensures b % 10 != 0
  {
  }

  /** Changing one digit of a valid number makes it invalid. */
  lemma LuhnCatchesOneWrongDigit(s: string, i: nat, c: char)
    requires AllDigits(s) && i < |s| && IsDigit(c) && c != s[i] && LuhnValid(s)
    ensures !LuhnValid(s[i := c])
  {
    LuhnSumAt(s, false, i, c);
    LuhnDigitsDiffer(c, s[i], (|s| - 1 - i) % 2 != 0);
    NextToTen(LuhnSum(s, false), LuhnSum(s[i := c], false));
  }

  // ---- redaction ----

  predicate IsPan(candidate: string) {
    var digits := DigitsOf(candidate);
    PAN_MIN <= |digits| <= PAN_MAX && LuhnValid(digits)
  }

  function RedactPan(afterWord: bool, s: string): string
    decreases |s|
  {
    if s == "" then ""
    else
      var m := PanMatch(afterWord, s);
      if m.None? then [s[0]] + RedactPan(IsWord(s[0]), s[1..])
      else
        PanMatchEnds(afterWord, s);
        (if IsPan(s[..m.value]) then REDACTED else s[..m.value]) + RedactPan(true, s[m.value..])
  }

  function HardDenyValue(s: string): string {
    RedactPan(false, RedactSsn(false, s))
  }

  // ---- where a redacted text first differs from the text ----

  /** The redaction first differs at `m`: a number starts there in `r`, and '[' stands there in `o`. */
  predicate Diverges(afterWord: bool, r: string, o: string, m: nat) {
    && m < |r| && m < |o| && o[..m] == r[..m] && o[m] == '[' && IsDigit(r[m])
    && (if m == 0 then !afterWord else !IsWord(r[m - 1]))
  }

  lemma {:induction false} PanDiverges(afterWord: bool, r: string) returns (m: nat)
    ensures RedactPan(afterWord, r) == r || Diverges(afterWord, r, RedactPan(afterWord, r), m)
    decreases |r|
  {
    m := 0;
    if r != "" {
      var found := PanMatch(afterWord, r);
      if found.None? {
        var o := RedactPan(IsWord(r[0]), r[1..]);
        m := PanDiverges(IsWord(r[0]), r[1..]);
        if o != r[1..] {
          DivergesAfterOne(afterWord, r, o, m);
        }
        m := m + 1;
      } else {
        PanMatchEnds(afterWord, r);
        var n := found.value;
        var o := RedactPan(true, r[n..]);
        if !IsPan(r[..n]) {
          m := PanDiverges(true, r[n..]);
          if o == r[n..] {
            assert r[..n] + r[n..] == r;
          } else {
            DivergesLater(afterWord, r, n, o, m);
          }
          m := n + m;
        }
      }
    }
  }

  lemma DivergesAfterOne(afterWord: bool, r: string, o: string, m: nat)
    requires r != "" && Diverges(IsWord(r[0]), r[1..], o, m)
    ensures Diverges(afterWord, r, [r[0]] + o, m + 1)
  {
    assert ([r[0]] + o)[..m + 1] == [r[0]] + o[..m];
    assert r[..m + 1] == [r[0]] + r[1..][..m];
  }

  lemma DivergesLater(afterWord: bool, r: string, n: nat, o: string, m: nat)
    requires 0 < n <= |r| && Diverges(true, r[n..], o, m)
    ensures Diverges(afterWord, r, r[..n] + o, n + m)
  {
    assert (r[..n] + o)[..n + m] == r[..n] + o[..m];
    assert r[..n + m] == r[..n] + r[n..][..m];
    assert r[n + m - 1] == r[n..][m - 1];
  }

  lemma {:induction false} SsnDiverges(afterWord: bool, r: string) returns (m: nat)
    ensures RedactSsn(afterWord, r) == r || Diverges(afterWord, r, RedactSsn(afterWord, r), m)
    decreases |r|
  {
    m := 0;
    if r != "" && !SsnMatch(afterWord, r) {
      m := SsnDiverges(IsWord(r[0]), r[1..]);
      if RedactSsn(IsWord(r[0]), r[1..]) != r[1..] {
        DivergesAfterOne(afterWord, r, RedactSsn(IsWord(r[0]), r[1..]), m);
      }
      m := m + 1;
    }
  }

  /** A candidate that ends before the first redaction, or does not exist, is the same afterwards. */
  lemma {:induction false} GreedyStable(r: string, o: string, m: nat, k: nat)
    requires m > 0 && Diverges(true, r, o, m)
    ensures Greedy(r, k).None? ==> Greedy(o, k).None?
    ensures Greedy(r, k).Some? && Greedy(r, k).value < m ==> Greedy(o, k) == Greedy(r, k)
    decreases |r|
  {
    assert o[0] == r[0] && (m > 1 ==> o[1] == r[1]);
    if k < PAN_MAX {
      if IsDigit(r[0]) {
        assert o[1..][..m - 1] == r[1..][..m - 1];
        assert Diverges(true, r[1..], o[1..], m - 1);
        GreedyStable(r[1..], o[1..], m - 1, k + 1);
      } else if |r| > 1 && IsSeparator(r[0]) && IsDigit(r[1]) && m > 1 {
        assert o[2..][..m - 2] == r[2..][..m - 2];
        assert Diverges(true, r[2..], o[2..], m - 2);
        GreedyStable(r[2..], o[2..], m - 2, k + 1);
      }
    }
  }

  /** A text that shows a number before the first redaction showed it already. */
  lemma SsnStable(afterWord: bool, r: string, o: string, m: nat)
    requires Diverges(afterWord, r, o, m) && SsnMatch(afterWord, o)
    ensures SsnMatch(afterWord, r)
  {
    assert forall i | 0 <= i < SSN_CHARS :: o[i] != '[';
    assert m >= SSN_CHARS;
    assert forall i | 0 <= i < m :: o[..m][i] == r[..m][i];
  }

  // ---- passing over text that is kept ----

  /** After a word boundary that a kept character gives, what came before does not matter. */
  lemma BoundaryForgets(s: string)
    requires WordEnds(s)
    ensures RedactPan(true, s) == RedactPan(false, s) && WordEnds(RedactPan(true, s))
    ensures RedactSsn(true, s) == RedactSsn(false, s) && WordEnds(RedactSsn(true, s))
  {
  }

  predicate NoDigits(t: string) {
    forall i | 0 <= i < |t| :: !IsDigit(t[i])
  }

  lemma {:induction false} PassOver(afterWord: bool, t: string, s: string)
    requires NoDigits(t) && t != ""
    ensures RedactPan(afterWord, t + s) == t + RedactPan(IsWord(t[|t| - 1]), s)
    ensures RedactSsn(afterWord, t + s) == t + RedactSsn(IsWord(t[|t| - 1]), s)
    decreases |t|
  {
    assert (t + s)[0] == t[0] && (t + s)[1..] == t[1..] + s;
    if |t| == 1 {
      assert t[1..] + s == s && t == [t[0]];
    } else {
      PassOver(IsWord(t[0]), t[1..], s);
      assert t == [t[0]] + t[1..];
    }
  }

  /** A redacted text in front of text that starts at a boundary is passed over too. */
  lemma PassRedacted(afterWord: bool, s: string)
    requires WordEnds(s)
    ensures RedactPan(afterWord, REDACTED + s) == REDACTED + RedactPan(true, s)
    ensures RedactSsn(afterWord, REDACTED + s) == REDACTED + RedactSsn(true, s)
  {
    PassOver(afterWord, REDACTED, s);
    BoundaryForgets(s);
  }

  // ---- the card pass ----

  lemma KeptCandidate(afterWord: bool, r: string, n: nat, o: string)
    requires PanMatch(afterWord, r) == Some(n) && 0 < n <= |r|
    requires o == RedactPan(true, r[n..])
    ensures PanMatch(afterWord, r[..n] + o) == Some(n)
  {
    var rest := r[n..];
    var m := PanDiverges(true, rest);
    var q := r[..n] + o;
    if o == rest {
      assert q == r;
    } else {
      DivergesLater(afterWord, r, n, o, m);
      assert q[0] == r[0];
      assert q[1..][..n + m - 1] == q[..n + m][1..];
      assert r[1..][..n + m - 1] == r[..n + m][1..];
      GreedyStable(r[1..], q[1..], n + m - 1, 1);
    }
  }

  lemma NoNewCandidate(afterWord: bool, r: string, o: string)
    requires r != "" && PanMatch(afterWord, r).None? && o == RedactPan(IsWord(r[0]), r[1..])
    ensures PanMatch(afterWord, [r[0]] + o).None?
  {
    if !afterWord && IsDigit(r[0]) && o != r[1..] {
      var m := PanDiverges(true, r[1..]);
      GreedyStable(r[1..], o, m, 1);
    }
    assert ([r[0]] + o)[1..] == o;
    assert [r[0]] + r[1..] == r;
  }

  lemma {:induction false} PanIdempotent(afterWord: bool, r: string)
    ensures RedactPan(afterWord, RedactPan(afterWord, r)) == RedactPan(afterWord, r)
    decreases |r|
  {
    if r != "" {
      var found := PanMatch(afterWord, r);
      if found.None? {
        var o := RedactPan(IsWord(r[0]), r[1..]);
        NoNewCandidate(afterWord, r, o);
        PanIdempotent(IsWord(r[0]), r[1..]);
        assert ([r[0]] + o)[1..] == o;
      } else {
        PanMatchEnds(afterWord, r);
        var n := found.value;
        var o := RedactPan(true, r[n..]);
        PanIdempotent(true, r[n..]);
        if IsPan(r[..n]) {
          BoundaryForgets(r[n..]);
          PassRedacted(afterWord, o);
        } else {
          KeptCandidate(afterWord, r, n, o);
          assert (r[..n] + o)[..n] == r[..n] && (r[..n] + o)[n..] == o;
        }
      }
    }
  }

  // ---- the SSN pass ----

  /** A match of the SSN pattern at position `i`. */
  predicate SsnAt(afterWord: bool, s: string, i: nat)
    requires i <= |s|
  {
    SsnMatch(if i == 0 then afterWord else IsWord(s[i - 1]), s[i..])
  }

  predicate NoSsn(afterWord: bool, s: string) {
    forall i | 0 <= i <= |s| :: !SsnAt(afterWord, s, i)
  }

  lemma SsnAtLater(afterWord: bool, t: string, s: string, i: nat)
    requires t != "" && |t| <= i <= |t| + |s|
    ensures SsnAt(afterWord, t + s, i) == SsnAt(IsWord(t[|t| - 1]), s, i - |t|)
  {
    assert (t + s)[i..] == s[i - |t|..];
  }

  lemma NoSsnLater(afterWord: bool, t: string, s: string)
    requires t != ""
    ensures NoSsn(afterWord, t + s) ==> NoSsn(IsWord(t[|t| - 1]), s)
    ensures NoSsn(IsWord(t[|t| - 1]), s) && (forall i | 0 <= i < |t| :: !SsnAt(afterWord, t + s, i)) ==> NoSsn(afterWord, t + s)
  {
    forall i | |t| <= i <= |t| + |s|
      ensures SsnAt(afterWord, t + s, i) == SsnAt(IsWord(t[|t| - 1]), s, i - |t|)
    {
      SsnAtLater(afterWord, t, s, i);
    }
    if NoSsn(afterWord, t + s) {
      var context := IsWord(t[|t| - 1]);
      forall j | 0 <= j <= |s| ensures !SsnAt(context, s, j) {
        assert !SsnAt(afterWord, t + s, j + |t|);
      }
    }
  }

  lemma NoSsnTail(afterWord: bool, s: string)
    requires s != ""
    ensures NoSsn(afterWord, s) <==> !SsnMatch(afterWord, s) && NoSsn(IsWord(s[0]), s[1..])
  {
    assert s == [s[0]] + s[1..] && s[0..] == s;
    NoSsnLater(afterWord, [s[0]], s[1..]);
    assert SsnAt(afterWord, s, 0) == SsnMatch(afterWord, s);
  }

  lemma NoSsnAfterRedacted(afterWord: bool, s: string)
    requires NoSsn(true, s) && WordEnds(s)
    ensures NoSsn(afterWord, REDACTED + s)
  {
    assert !SsnMatch(false, s) && s[0..] == s;
    forall i | 0 <= i <= |s| ensures !SsnAt(false, s, i) {
      assert !SsnAt(true, s, i);
    }
    NoSsnLater(afterWord, REDACTED, s);
  }

  /** The SSN pass changes a text exactly when the pattern matches somewhere in it. */
  lemma {:induction false} SsnPassFixesIff(afterWord: bool, s: string)
    ensures RedactSsn(afterWord, s) == s <==> NoSsn(afterWord, s)
    decreases |s|
  {
    if s != "" {
      NoSsnTail(afterWord, s);
      SsnPassFixesIff(IsWord(s[0]), s[1..]);
      assert s == [s[0]] + s[1..];
      if SsnMatch(afterWord, s) {
        assert RedactSsn(afterWord, s)[0] == '[';
      }
    }
  }

  lemma {:induction false} SsnPassCleans(afterWord: bool, r: string)
    ensures NoSsn(afterWord, RedactSsn(afterWord, r))
    decreases |r|
  {
    if r != "" {
      if SsnMatch(afterWord, r) {
        SsnPassCleans(true, r[SSN_CHARS..]);
        BoundaryForgets(r[SSN_CHARS..]);
        NoSsnAfterRedacted(afterWord, RedactSsn(true, r[SSN_CHARS..]));
      } else {
        var o := RedactSsn(afterWord, r);
        SsnPassCleans(IsWord(r[0]), r[1..]);
        if SsnMatch(afterWord, o) {
          var m := SsnDiverges(afterWord, r);
          if o != r {
            SsnStable(afterWord, r, o, m);
          }
        }
        assert o[1..] == RedactSsn(IsWord(r[0]), r[1..]);
        NoSsnTail(afterWord, o);
      }
    }
  }

  // ---- the card pass brings no number back ----

  lemma NoSsnBeforeRedaction(afterWord: bool, r: string, o: string, m: nat, i: nat)
    requires NoSsn(afterWord, r) && Diverges(afterWord, r, o, m) && i <= m
    ensures !SsnAt(afterWord, o, i)
  {
    assert o[..m][..i] == r[..m][..i];
    if i > 0 {
      assert o[..m][i - 1] == r[..m][i - 1];
    }
    var context := if i == 0 then afterWord else IsWord(r[i - 1]);
    assert o[i..][..m - i] == o[..m][i..] && r[i..][..m - i] == r[..m][i..];
    assert Diverges(context, r[i..], o[i..], m - i);
    assert !SsnAt(afterWord, r, i);
    if SsnMatch(context, o[i..]) {
      SsnStable(context, r[i..], o[i..], m - i);
    }
  }

  lemma {:induction false} PanKeepsNoSsn(afterWord: bool, r: string)
    requires NoSsn(afterWord, r)
    ensures NoSsn(afterWord, RedactPan(afterWord, r))
    decreases |r|
  {
    var all := RedactPan(afterWord, r);
    if r != "" && all != r {
      var m := PanDiverges(afterWord, r);
      var found := PanMatch(afterWord, r);
      if found.None? {
        NoSsnTail(afterWord, r);
        PanKeepsNoSsn(IsWord(r[0]), r[1..]);
        NoSsnBeforeRedaction(afterWord, r, all, m, 0);
        assert all[0..] == all && all[1..] == RedactPan(IsWord(r[0]), r[1..]);
        NoSsnTail(afterWord, all);
      } else {
        PanMatchEnds(afterWord, r);
        PanKeepsAround(afterWord, r, found.value, m);
      }
    }
  }

  lemma {:induction false} PanKeepsAround(afterWord: bool, r: string, n: nat, m: nat)
    requires NoSsn(afterWord, r) && PanMatch(afterWord, r) == Some(n) && 0 < n <= |r| && IsDigit(r[n - 1]) && WordEnds(r[n..])
    requires Diverges(afterWord, r, RedactPan(afterWord, r), m)
    ensures NoSsn(afterWord, RedactPan(afterWord, r))
    decreases |r|, 0
  {
    assert r == r[..n] + r[n..];
    NoSsnLater(afterWord, r[..n], r[n..]);
    PanKeepsNoSsn(true, r[n..]);
    var o := RedactPan(true, r[n..]);
    if IsPan(r[..n]) {
      BoundaryForgets(r[n..]);
      NoSsnAfterRedacted(afterWord, o);
    } else {
      var all := r[..n] + o;
      assert forall j | 0 <= j < n :: all[j] == r[j];
      forall i | 0 <= i < n ensures !SsnAt(afterWord, all, i) {
        NoSsnBeforeRedaction(afterWord, r, all, m, i);
      }
      NoSsnLater(afterWord, r[..n], o);
    }
  }

  // ---- what the denylist promises ----

  /** No social security number is left anywhere in a mapped string. */
  lemma NoSsnIsLeft(s: string)
    ensures NoSsn(false, HardDenyValue(s))
  {
    SsnPassCleans(false, s);
    PanKeepsNoSsn(false, RedactSsn(false, s));
  }

  /** Masking a masked value changes nothing. */
  lemma HardDenyIdempotent(s: string)
    ensures HardDenyValue(HardDenyValue(s)) == HardDenyValue(s)
  {
    NoSsnIsLeft(s);
    SsnPassFixesIff(false, HardDenyValue(s));
    PanIdempotent(false, RedactSsn(false, s));
  }

  /** The candidates that the global pattern finds, from left to right. */
  function Candidates(afterWord: bool, s: string): seq<string>
    decreases |s|
  {
    if s == "" then []
    else
      var found := PanMatch(afterWord, s);
      if found.None? then Candidates(IsWord(s[0]), s[1..])
      else
        PanMatchEnds(afterWord, s);
        [s[..found.value]] + Candidates(true, s[found.value..])
  }

  lemma {:induction false} GreedyCounts(rest: string, k: nat)
    requires Greedy(rest, k).Some? && k <= PAN_MAX
    ensures Greedy(rest, k).value <= |rest|
    ensures PAN_MIN <= k + |DigitsOf(rest[..Greedy(rest, k).value])| <= PAN_MAX
    decreases |rest|
  {
    GreedyEnds(rest, k);
    var n := Greedy(rest, k).value;
    if n > 0 {
      if IsDigit(rest[0]) {
        GreedyCounts(rest[1..], k + 1);
        assert rest[..n][1..] == rest[1..][..n - 1];
      } else {
        GreedyCounts(rest[2..], k + 1);
        assert rest[..n][1..][1..] == rest[2..][..n - 2];
        assert rest[..n][1..][0] == rest[1];
      }
    }
  }

  /** The digit count the replacement checks again is already fixed by the pattern. */
  lemma CandidateHasCardLength(afterWord: bool, s: string)
    requires PanMatch(afterWord, s).Some?
    ensures PanMatch(afterWord, s).value <= |s|
    ensures PAN_MIN <= |DigitsOf(s[..PanMatch(afterWord, s).value])| <= PAN_MAX
  {
    PanMatchEnds(afterWord, s);
    GreedyCounts(s[1..], 1);
    var n := PanMatch(afterWord, s).value;
    assert s[..n][1..] == s[1..][..n - 1];
  }

  lemma {:induction false} KeptCandidatesFail(afterWord: bool, s: string)
    requires RedactPan(afterWord, s) == s
    ensures forall c | c in Candidates(afterWord, s) :: !LuhnValid(DigitsOf(c))
    decreases |s|
  {
    if s != "" {
      var found := PanMatch(afterWord, s);
      if found.None? {
        assert s[1..] == RedactPan(IsWord(s[0]), s[1..]);
        KeptCandidatesFail(IsWord(s[0]), s[1..]);
      } else {
        PanMatchEnds(afterWord, s);
        CandidateHasCardLength(afterWord, s);
        var n := found.value;
        var kept := if IsPan(s[..n]) then REDACTED else s[..n];
        assert s == kept + RedactPan(true, s[n..]) && s[0] == kept[0];
        assert kept == s[..n];
        assert s[n..] == RedactPan(true, s[n..]);
        KeptCandidatesFail(true, s[n..]);
      }
    }
  }

  /** Every card-number candidate that is left in a mapped string fails the Luhn check. */
  lemma CandidatesLeftFailLuhn(s: string)
    ensures forall c | c in Candidates(false, HardDenyValue(s)) :: !LuhnValid(DigitsOf(c))
  {
    PanIdempotent(false, RedactSsn(false, s));
    KeptCandidatesFail(false, HardDenyValue(s));
  }

  // ---- hashed values survive the denylist ----

  predicate AllWord(s: string) {
    forall i | 0 <= i < |s| :: IsWord(s[i])
  }

  /** A run of word characters too long for a card number is no candidate. */
  lemma {:induction false} LongRunIsNoCandidate(rest: string, k: nat)
    requires AllWord(rest) && k <= PAN_MAX < |rest| + k
    ensures Greedy(rest, k).None?
    decreases |rest|
  {
    if k < PAN_MAX && IsDigit(rest[0]) {
      LongRunIsNoCandidate(rest[1..], k + 1);
    }
  }

  lemma {:induction false} WordsStay(s: string)
    requires AllWord(s)
    ensures RedactPan(true, s) == s
    decreases |s|
  {
    if s != "" {
      WordsStay(s[1..]);
    }
  }

  lemma {:induction false} NoDashNoSsn(afterWord: bool, s: string)
    requires '-' !in s
    ensures NoSsn(afterWord, s)
  {
    forall i | 0 <= i <= |s| ensures !SsnAt(afterWord, s, i) {
      assert |s[i..]| > 3 ==> s[i..][3] == s[i + 3];
    }
  }

  const HASH_PREFIX := "hmac256:"
  const HASH_CHARS := 64

  /** What the hash transform writes passes the denylist unchanged, whatever its digits are. */
  lemma HashesSurvive(hex: string)
    requires |hex| >= HASH_CHARS && AllWord(hex)
    ensures HardDenyValue(HASH_PREFIX + hex) == HASH_PREFIX + hex
  {
    var s := HASH_PREFIX + hex;
    assert !IsWord('-');
    NoDashNoSsn(false, s);
    SsnPassFixesIff(false, s);
    var t := "hmac";
    assert s == t + ("256:" + hex);
    PassOver(false, t, "256:" + hex);
    WordThenColon("256", hex);
    assert "256" + ":" + hex == "256:" + hex;
  }

  /** After a word character nothing is redacted before the next character is looked at. */
  lemma StepAfterWord(s: string)
    requires s != ""
    ensures RedactPan(true, s) == [s[0]] + RedactPan(IsWord(s[0]), s[1..])
  {
  }

  lemma LongHexStays(hex: string)
    requires |hex| >= HASH_CHARS && AllWord(hex)
    ensures RedactPan(false, hex) == hex
  {
    LongRunIsNoCandidate(hex[1..], 1);
    WordsStay(hex[1..]);
  }

  lemma {:induction false} WordThenColon(w: string, hex: string)
    requires AllWord(w) && |hex| >= HASH_CHARS && AllWord(hex)
    ensures RedactPan(true, w + ":" + hex) == w + ":" + hex
    decreases |w|
  {
    var s := w + ":" + hex;
    StepAfterWord(s);
    if w == "" {
      assert s[1..] == hex && s[0] == ':';
      LongHexStays(hex);
    } else {
      assert s[1..] == w[1..] + ":" + hex && s[0] == w[0];
      WordThenColon(w[1..], hex);
    }
  }

  // ---- JSON values ----

  function HardDenyDeep(v: Json): Json {
    match v
    case Str(s) => Str(HardDenyValue(s))
    case Arr(items) => Arr(DenyItems(items))
    case Obj(fields) => Obj(DenyFields(fields))
    case _ => v
  }

  function DenyItems(items: seq<Json>): seq<Json> {
    if items == [] then [] else [HardDenyDeep(items[0])] + DenyItems(items[1..])
  }

  function DenyFields(fields: seq<Field>): seq<Field> {
    if fields == [] then []
    else [Field(fields[0].key, HardDenyDeep(fields[0].value))] + DenyFields(fields[1..])
  }

  predicate Clean(s: string) {
    && NoSsn(false, s)
    && forall c | c in Candidates(false, s) :: !LuhnValid(DigitsOf(c))
  }

  /** Every string value in the document is clean. Numbers and keys are not looked at. */
  predicate Masked(v: Json) {
    match v
    case Str(s) => Clean(s)
    case Arr(items) => forall i | 0 <= i < |items| :: Masked(items[i])
    case Obj(fields) => forall i | 0 <= i < |fields| :: Masked(fields[i].value)
    case _ => true
  }

  /** The same document up to the contents of its string values. */
  predicate SameShape(v: Json, w: Json) {
    match v
    case Str(_) => w.Str?
    case Arr(items) =>
      w.Arr? && |w.items| == |items| && forall i | 0 <= i < |items| :: SameShape(items[i], w.items[i])
    case Obj(fields) =>
      && w.Obj? && |w.fields| == |fields|
      && forall i | 0 <= i < |fields| ::
        fields[i].key == w.fields[i].key && SameShape(fields[i].value, w.fields[i].value)
    case _ => w == v
  }

  lemma {:induction false} DenyItemsAt(items: seq<Json>, i: nat)
    ensures |DenyItems(items)| == |items|
    ensures i < |items| ==> DenyItems(items)[i] == HardDenyDeep(items[i])
    decreases |items|
  {
    if items != [] {
      DenyItemsAt(items[1..], if i == 0 then 0 else i - 1);
    }
  }

  lemma {:induction false} DenyFieldsAt(fields: seq<Field>, i: nat)
    ensures |DenyFields(fields)| == |fields|
    ensures i < |fields| ==> DenyFields(fields)[i] == Field(fields[i].key, HardDenyDeep(fields[i].value))
    decreases |fields|
  {
    if fields != [] {
      DenyFieldsAt(fields[1..], if i == 0 then 0 else i - 1);
    }
  }

  /** Masking reaches every string of a value, keeps everything else, and is idempotent. */
  lemma {:induction false} HardDenyDeepMasks(v: Json)
    ensures Masked(HardDenyDeep(v))
    ensures SameShape(v, HardDenyDeep(v))
    ensures HardDenyDeep(HardDenyDeep(v)) == HardDenyDeep(v)
  {
    var w := HardDenyDeep(v);
    match v
    case Str(s) =>
      NoSsnIsLeft(s);
      CandidatesLeftFailLuhn(s);
      HardDenyIdempotent(s);
    case Arr(items) =>
      DenyItemsAt(items, 0);
      DenyItemsAt(w.items, 0);
      forall i | 0 <= i < |items|
        ensures w.items[i] == HardDenyDeep(items[i]) && HardDenyDeep(w).items[i] == w.items[i]
        ensures Masked(w.items[i]) && SameShape(items[i], w.items[i])
      {
        DenyItemsAt(items, i);
        DenyItemsAt(w.items, i);
        HardDenyDeepMasks(items[i]);
      }
    case Obj(fields) =>
      DenyFieldsAt(fields, 0);
      DenyFieldsAt(w.fields, 0);
      forall i | 0 <= i < |fields|
        ensures w.fields[i] == Field(fields[i].key, HardDenyDeep(fields[i].value))
        ensures HardDenyDeep(w).fields[i] == w.fields[i]
        ensures Masked(w.fields[i].value) && SameShape(fields[i].value, w.fields[i].value)
      {
        DenyFieldsAt(fields, i);
        DenyFieldsAt(w.fields, i);
        HardDenyDeepMasks(fields[i].value);
      }
    case _ =>
  }
}
