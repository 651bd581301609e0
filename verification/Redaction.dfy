/**
 What the denylist replaces, told without its scans: the matches that the two patterns find from left to right, of which
 the second pass replaces those that pass the Luhn check.
 */
module Redaction {
  import opened Prelude
  import opened Digits
  import opened Denylist

  // ---- the patterns ----

  /** The code points that `\w` and `\d` stand for. */
  lemma WordCodes(c: char)
    ensures IsDigit(c) <==> 0x30 <= c as int <= 0x39
    ensures IsWord(c) <==> IsDigit(c) || 0x41 <= c as int <= 0x5A || c as int == 0x5F || 0x61 <= c as int <= 0x7A
  {
  }

  /** `\d{3}-\d{2}-\d{4}` */
  const SSN_PICTURE := "ddd-dd-dddd"

  /** The text starts with what the picture shows, a 'd' standing for a digit. */
  predicate Looks(s: string, picture: string) {
    && |s| >= |picture|
    && forall i | 0 <= i < |picture| :: if picture[i] == 'd' then IsDigit(s[i]) else s[i] == picture[i]
  }

  /** Between word boundaries, `n` characters from here. */
  predicate Bounded(afterWord: bool, s: string, n: nat) {
    n <= |s| && !afterWord && (n < |s| ==> !IsWord(s[n]))
  }

  predicate IsSsn(afterWord: bool, s: string) {
    Looks(s, SSN_PICTURE) && Bounded(afterWord, s, 11)
  }

  /** `(?:[ -]?\d)*`: digits, each with at most one separator before it. */
  predicate Groups(t: string) {
    forall i | 0 <= i < |t| :: IsDigit(t[i]) || (i + 1 < |t| && (t[i] == ' ' || t[i] == '-') && IsDigit(t[i + 1]))
  }

  predicate CardShape(t: string) {
    t != "" && IsDigit(t[0]) && Groups(t)
  }

  /** 13 to 19 digits in that shape, between word boundaries. */
  predicate IsCandidate(afterWord: bool, s: string, n: nat) {
    Bounded(afterWord, s, n) && CardShape(s[..n]) && 13 <= |DigitsOf(s[..n])| <= 19
  }

  lemma SsnIs(afterWord: bool, s: string)
    ensures SsnMatch(afterWord, s) <==> IsSsn(afterWord, s)
  {
    var p := SSN_PICTURE;
    assert p[0] == 'd' && p[1] == 'd' && p[2] == 'd' && p[3] == '-' && p[4] == 'd' && p[5] == 'd' && p[6] == '-';
    assert p[7] == 'd' && p[8] == 'd' && p[9] == 'd' && p[10] == 'd';
    if IsSsn(afterWord, s) {
      assert forall i | 0 <= i < 11 :: if p[i] == 'd' then IsDigit(s[i]) else s[i] == p[i];
    }
  }

  // ---- the greedy repetition finds the longest match ----

  /** One `[ -]?\d` of `d` characters. */
  predicate StartsGroup(t: string, d: nat) {
    (d == 1 && |t| >= 1 && IsDigit(t[0])) || (d == 2 && |t| >= 2 && (t[0] == ' ' || t[0] == '-') && IsDigit(t[1]))
  }

  /** With `k` digits before it, `n` characters complete a candidate. */
  predicate Completes(rest: string, k: nat, n: nat) {
    n <= |rest| && Groups(rest[..n]) && 13 <= k + |DigitsOf(rest[..n])| <= 19 && WordEnds(rest[n..])
  }

  lemma GroupsTail(t: string, d: nat)
    requires d <= |t| && Groups(t)
    ensures Groups(t[d..])
  {
    forall i | 0 <= i < |t[d..]|
      ensures IsDigit(t[d..][i]) || (i + 1 < |t[d..]| && (t[d..][i] == ' ' || t[d..][i] == '-') && IsDigit(t[d..][i + 1]))
    {
      assert t[d..][i] == t[d + i];
      assert i + 1 < |t[d..]| ==> t[d..][i + 1] == t[d + i + 1];
    }
  }

  lemma GroupsMore(head: string, t: string)
    requires Groups(t) && StartsGroup(head, |head|)
    ensures Groups(head + t)
  {
    var s := head + t;
    forall i | 0 <= i < |s| ensures IsDigit(s[i]) || (i + 1 < |s| && (s[i] == ' ' || s[i] == '-') && IsDigit(s[i + 1])) {
      if i >= |head| {
        assert s[i] == t[i - |head|];
      }
    }
  }

  lemma DigitsHead(t: string, d: nat)
    requires StartsGroup(t, d)
    ensures |DigitsOf(t)| == 1 + |DigitsOf(t[d..])|
  {
    if d == 2 {
      assert t[1..][0] == t[1] && t[1..][1..] == t[2..];
    }
  }

  /** Taking one more digit, with the separator before it, or leaving it. */
  lemma OneGroup(rest: string, k: nat, d: nat, n: nat)
    requires StartsGroup(rest, d) && n >= d
    ensures Completes(rest, k, n) <==> Completes(rest[d..], k + 1, n - d)
  {
    if n <= |rest| {
      SameParts(rest, d, n);
      StartsWith(rest, d, n);
      DigitsHead(rest[..n], d);
      GroupsAfter(rest[..n], d);
    }
  }

  lemma SameParts(rest: string, d: nat, n: nat)
    requires d <= n <= |rest|
    ensures rest[..n][d..] == rest[d..][..n - d] && rest[n..] == rest[d..][n - d..]
  {
  }

  lemma StartsWith(rest: string, d: nat, n: nat)
    requires StartsGroup(rest, d) && d <= n <= |rest|
    ensures StartsGroup(rest[..n], d)
  {
  }

  lemma GroupsAfter(t: string, d: nat)
    requires StartsGroup(t, d)
    ensures Groups(t) <==> Groups(t[d..])
  {
    if Groups(t) {
      GroupsTail(t, d);
    }
    if Groups(t[d..]) {
      assert t == t[..d] + t[d..];
      GroupsMore(t[..d], t[d..]);
    }
  }

  /** No candidate ends inside a group, or goes on where no group begins. */
  lemma NoOther(rest: string, k: nat, n: nat)
    requires n > 0 && Completes(rest, k, n)
    ensures StartsGroup(rest, 1) || (n >= 2 && StartsGroup(rest, 2))
    ensures k < 19
  {
    var t := rest[..n];
    assert t[0] == rest[0] && (n >= 2 ==> t[1] == rest[1]);
    DigitsHead(t, if IsDigit(t[0]) then 1 else 2);
  }

  lemma Here(rest: string, k: nat)
    ensures Completes(rest, k, 0) <==> 13 <= k <= 19 && WordEnds(rest)
  {
    assert rest[..0] == "" && rest[0..] == rest;
  }

  /** No completion takes more than `n` characters. */
  ghost predicate NoLonger(rest: string, k: nat, n: nat) {
    forall m: nat | m > n :: !Completes(rest, k, m)
  }

  ghost predicate NoEnd(rest: string, k: nat) {
    forall m: nat :: !Completes(rest, k, m)
  }

  /** The longest completion, if there is one. */
  ghost predicate IsLongestEnd(rest: string, k: nat, found: Option<nat>) {
    match found
    case Some(n) => Completes(rest, k, n) && NoLonger(rest, k, n)
    case None => NoEnd(rest, k)
  }

  /** A completion that takes something takes the group that starts here. */
  lemma LaterEnd(rest: string, k: nat, d: nat, m: nat)
    requires StartsGroup(rest, d) && m > 0 && Completes(rest, k, m)
    ensures m >= d && Completes(rest[d..], k + 1, m - d)
  {
    NoOther(rest, k, m);
    assert m >= d;
    OneGroup(rest, k, d, m);
  }

  lemma NoLongerAfter(rest: string, k: nat, d: nat, n: nat)
    requires StartsGroup(rest, d) && NoLonger(rest[d..], k + 1, n)
    ensures NoLonger(rest, k, n + d)
  {
    forall m: nat | m > n + d ensures !Completes(rest, k, m) {
      if Completes(rest, k, m) {
        LaterEnd(rest, k, d, m);
      }
    }
  }

  lemma OnlyHere(rest: string, k: nat, d: nat)
    requires StartsGroup(rest, d) && NoEnd(rest[d..], k + 1)
    ensures NoLonger(rest, k, 0)
  {
    forall m: nat | m > 0 ensures !Completes(rest, k, m) {
      if Completes(rest, k, m) {
        LaterEnd(rest, k, d, m);
      }
    }
  }

  lemma LongestAfter(rest: string, k: nat, d: nat, more: Option<nat>)
    requires StartsGroup(rest, d) && IsLongestEnd(rest[d..], k + 1, more)
    ensures IsLongestEnd(rest, k, if more.Some? then Some(more.value + d) else if 13 <= k <= 19 && WordEnds(rest) then Some(0) else None)
  {
    match more
    case Some(n) => MoreAfter(rest, k, d, n);
    case None => OnlyAfter(rest, k, d);
  }

  lemma MoreAfter(rest: string, k: nat, d: nat, n: nat)
    requires StartsGroup(rest, d) && Completes(rest[d..], k + 1, n) && NoLonger(rest[d..], k + 1, n)
    ensures Completes(rest, k, n + d) && NoLonger(rest, k, n + d)
  {
    OneGroup(rest, k, d, n + d);
    NoLongerAfter(rest, k, d, n);
  }

  lemma OnlyAfter(rest: string, k: nat, d: nat)
    requires StartsGroup(rest, d) && NoEnd(rest[d..], k + 1)
    ensures IsLongestEnd(rest, k, if 13 <= k <= 19 && WordEnds(rest) then Some(0) else None)
  {
    Here(rest, k);
    OnlyHere(rest, k, d);
    if !(13 <= k <= 19 && WordEnds(rest)) {
      forall m: nat ensures !Completes(rest, k, m) {
      }
    }
  }

  lemma NoneAfter(rest: string, k: nat)
    requires k >= 19 || (!StartsGroup(rest, 1) && !StartsGroup(rest, 2))
    ensures IsLongestEnd(rest, k, if 13 <= k <= 19 && WordEnds(rest) then Some(0) else None)
  {
    Here(rest, k);
    forall m: nat | m > 0 && Completes(rest, k, m) ensures false {
      NoOther(rest, k, m);
    }
  }

  lemma {:induction false} GreedyIsLongest(rest: string, k: nat)
    ensures IsLongestEnd(rest, k, Greedy(rest, k))
    decreases |rest|
  {
    if k < 19 && |rest| > 0 && IsDigit(rest[0]) {
      GreedyIsLongest(rest[1..], k + 1);
      LongestAfter(rest, k, 1, Greedy(rest[1..], k + 1));
    } else if k < 19 && |rest| > 1 && IsSeparator(rest[0]) && IsDigit(rest[1]) {
      GreedyIsLongest(rest[2..], k + 1);
      LongestAfter(rest, k, 2, Greedy(rest[2..], k + 1));
    } else {
      NoneAfter(rest, k);
    }
  }

  lemma CandidateCompletes(s: string, n: nat)
    requires 0 < n <= |s| && IsDigit(s[0])
    ensures IsCandidate(false, s, n) <==> Completes(s[1..], 1, n - 1)
  {
    var t := s[..n];
    assert t[1..] == s[1..][..n - 1] && s[1..][n - 1..] == s[n..] && t == [s[0]] + t[1..];
    DigitsHead(t, 1);
    if CardShape(t) {
      GroupsTail(t, 1);
    }
    if Groups(t[1..]) {
      GroupsMore([s[0]], t[1..]);
    }
  }

  lemma CandidateStarts(afterWord: bool, s: string, m: nat)
    requires IsCandidate(afterWord, s, m)
    ensures !afterWord && s != "" && IsDigit(s[0])
  {
    assert s[..m][0] == s[0];
  }

  /** The pattern finds the longest candidate that starts here, and misses none. */
  lemma MatchIsLongest(afterWord: bool, s: string)
    ensures match PanMatch(afterWord, s)
            case Some(n) => IsCandidate(afterWord, s, n) && forall m: nat | m > n :: !IsCandidate(afterWord, s, m)
            case None => forall m: nat :: !IsCandidate(afterWord, s, m)
  {
    if !afterWord && s != "" && IsDigit(s[0]) {
      GreedyIsLongest(s[1..], 1);
      forall m: nat | 0 < m <= |s| ensures IsCandidate(afterWord, s, m) <==> Completes(s[1..], 1, m - 1) {
        CandidateCompletes(s, m);
      }
      assert !IsCandidate(afterWord, s, 0);
    } else {
      forall m: nat ensures !IsCandidate(afterWord, s, m) {
        if IsCandidate(afterWord, s, m) {
          CandidateStarts(afterWord, s, m);
        }
      }
    }
  }

  // ---- the Luhn sum, from the left ----

  /** The sum of the first `n` digits: every second one from the right end of the number counts as the digit sum of its double. */
  function LuhnTotal(s: string, n: nat): int
    requires n <= |s|
  {
    if n == 0 then 0
    else
      var d := s[n - 1] as int - '0' as int;
      LuhnTotal(s, n - 1) + if (|s| - n) % 2 == 0 then d else 2 * d / 10 + 2 * d % 10
  }

  lemma DoubledDigit(c: char)
    requires IsDigit(c)
    ensures var d := c as int - '0' as int; LuhnDigit(c, false) == d && LuhnDigit(c, true) == 2 * d / 10 + 2 * d % 10
  {
  }

  lemma {:induction false} SumIsTotal(s: string, n: nat, double: bool)
    requires AllDigits(s) && n <= |s| && double == ((|s| - n) % 2 == 1)
    ensures LuhnSum(s[..n], double) == LuhnTotal(s, n)
    decreases n
  {
    if n > 0 {
      var t := s[..n];
      assert t[..n - 1] == s[..n - 1] && t[n - 1] == s[n - 1];
      DoubledDigit(s[n - 1]);
      SumIsTotal(s, n - 1, !double);
    }
  }

  /** The check passes exactly if that sum of all digits is a multiple of ten. */
  lemma LuhnIff(s: string)
    requires AllDigits(s)
    ensures LuhnValid(s) <==> LuhnTotal(s, |s|) % 10 == 0
  {
    assert s[..|s|] == s;
    SumIsTotal(s, |s|, false);
  }

  /** Its digits pass the check. */
  predicate IsCardNumber(t: string) {
    LuhnTotal(DigitsOf(t), |DigitsOf(t)|) % 10 == 0
  }

  /** The digits of a candidate are digits. */
  lemma {:induction false} CandidateDigits(t: string)
    requires Groups(t)
    ensures AllDigits(DigitsOf(t))
    decreases |t|
  {
    if t != "" {
      GroupsTail(t, 1);
      CandidateDigits(t[1..]);
    }
  }

  // ---- what is replaced ----

  /** A part of the text: a match, or a character that no match takes. */
  datatype Piece = Match(text: string) | Other(c: char)
  {
    function Text(): string {
      if Match? then text else [c]
    }
  }

  function TextOf(pieces: seq<Piece>): string {
    if pieces == [] then "" else pieces[0].Text() + TextOf(pieces[1..])
  }

  /** The text with every match replaced. */
  function Replaced(pieces: seq<Piece>): string {
    if pieces == [] then "" else (if pieces[0].Match? then "[REDACTED]" else [pieces[0].c]) + Replaced(pieces[1..])
  }

  /** The text with the matches replaced that pass the Luhn check. */
  function CardsReplaced(pieces: seq<Piece>): string {
    if pieces == [] then ""
    else
      (if pieces[0].Match? && IsCardNumber(pieces[0].text) then "[REDACTED]" else pieces[0].Text())
      + CardsReplaced(pieces[1..])
  }

  /** The text from left to right: wherever the pattern matches, the match, and where it does not, one character. */
  predicate IsSsnScan(afterWord: bool, s: string, pieces: seq<Piece>)
    decreases |pieces|
  {
    if pieces == [] then s == ""
    else
      match pieces[0]
      case Match(t) => t != "" && IsSsn(afterWord, s) && t == s[..11] && IsSsnScan(IsWord(t[|t| - 1]), s[11..], pieces[1..])
      case Other(c) => s != "" && !IsSsn(afterWord, s) && c == s[0] && IsSsnScan(IsWord(c), s[1..], pieces[1..])
  }

  /** The longest candidate there is at the start of the text. */
  ghost predicate IsLongest(afterWord: bool, s: string, t: string) {
    t <= s && IsCandidate(afterWord, s, |t|) && forall m: nat | m > |t| :: !IsCandidate(afterWord, s, m)
  }

  ghost predicate NoCandidate(afterWord: bool, s: string) {
    forall m: nat :: !IsCandidate(afterWord, s, m)
  }

  ghost predicate IsCardScan(afterWord: bool, s: string, pieces: seq<Piece>)
    decreases |pieces|
  {
    if pieces == [] then s == ""
    else
      match pieces[0]
      case Match(t) => t != "" && IsLongest(afterWord, s, t) && IsCardScan(IsWord(t[|t| - 1]), s[|t|..], pieces[1..])
      case Other(c) => s != "" && NoCandidate(afterWord, s) && c == s[0] && IsCardScan(IsWord(c), s[1..], pieces[1..])
  }

  lemma FirstPiece(p: Piece, pieces: seq<Piece>)
    ensures ([p] + pieces)[0] == p && ([p] + pieces)[1..] == pieces
  {
  }

  /** The first pass replaces exactly the matches of the SSN pattern. */
  lemma {:induction false} SsnPassReplaces(afterWord: bool, s: string) returns (pieces: seq<Piece>)
    ensures IsSsnScan(afterWord, s, pieces) && TextOf(pieces) == s && RedactSsn(afterWord, s) == Replaced(pieces)
    decreases |s|
  {
    pieces := [];
    if s != "" {
      SsnIs(afterWord, s);
      var n := if SsnMatch(afterWord, s) then 11 else 1;
      var p := if n == 11 then Match(s[..11]) else Other(s[0]);
      var rest := SsnPassReplaces(IsWord(s[n - 1]), s[n..]);
      FirstPiece(p, rest);
      assert s == s[..n] + s[n..];
      pieces := [p] + rest;
    }
  }

  lemma CardMatch(afterWord: bool, s: string, n: nat)
    requires PanMatch(afterWord, s) == Some(n)
    ensures 0 < n <= |s| && IsLongest(afterWord, s, s[..n]) && IsDigit(s[n - 1])
    ensures IsPan(s[..n]) <==> IsCardNumber(s[..n])
  {
    MatchIsLongest(afterWord, s);
    PanMatchEnds(afterWord, s);
    CandidateHasCardLength(afterWord, s);
    CandidateDigits(s[..n]);
    LuhnIff(DigitsOf(s[..n]));
  }

  /** The second pass replaces exactly the matches of the card pattern that pass the Luhn check. */
  lemma {:induction false} CardPassReplaces(afterWord: bool, s: string) returns (pieces: seq<Piece>)
    ensures IsCardScan(afterWord, s, pieces) && TextOf(pieces) == s && RedactPan(afterWord, s) == CardsReplaced(pieces)
    decreases |s|
  {
    pieces := [];
    if s != "" {
      var found := PanMatch(afterWord, s);
      match found
      case None =>
        var rest := CardPassReplaces(IsWord(s[0]), s[1..]);
        pieces := OtherFirst(afterWord, s, rest);
      case Some(n) =>
        CardMatch(afterWord, s, n);
        var rest := CardPassReplaces(true, s[n..]);
        pieces := MatchFirst(afterWord, s, n, rest);
    }
  }

  lemma OtherFirst(afterWord: bool, s: string, rest: seq<Piece>) returns (pieces: seq<Piece>)
    requires s != "" && PanMatch(afterWord, s).None?
    requires IsCardScan(IsWord(s[0]), s[1..], rest) && TextOf(rest) == s[1..] && RedactPan(IsWord(s[0]), s[1..]) == CardsReplaced(rest)
    ensures IsCardScan(afterWord, s, pieces) && TextOf(pieces) == s && RedactPan(afterWord, s) == CardsReplaced(pieces)
  {
    MatchIsLongest(afterWord, s);
    FirstPiece(Other(s[0]), rest);
    pieces := [Other(s[0])] + rest;
  }

  lemma MatchFirst(afterWord: bool, s: string, n: nat, rest: seq<Piece>) returns (pieces: seq<Piece>)
    requires 0 < n <= |s| && PanMatch(afterWord, s) == Some(n)
    requires IsCardScan(true, s[n..], rest) && TextOf(rest) == s[n..] && RedactPan(true, s[n..]) == CardsReplaced(rest)
    ensures IsCardScan(afterWord, s, pieces) && TextOf(pieces) == s && RedactPan(afterWord, s) == CardsReplaced(pieces)
  {
    CardMatch(afterWord, s, n);
    FirstPiece(Match(s[..n]), rest);
    pieces := [Match(s[..n])] + rest;
    CardStep(afterWord, s, n);
    TextFirst(s, n, pieces);
  }

  lemma CardStep(afterWord: bool, s: string, n: nat)
    requires 0 < n <= |s| && PanMatch(afterWord, s) == Some(n)
    ensures RedactPan(afterWord, s) == (if IsPan(s[..n]) then "[REDACTED]" else s[..n]) + RedactPan(true, s[n..])
  {
  }

  lemma TextFirst(s: string, n: nat, pieces: seq<Piece>)
    requires n <= |s| && pieces != [] && pieces[0] == Match(s[..n]) && TextOf(pieces[1..]) == s[n..]
    ensures TextOf(pieces) == s
  {
    assert s == s[..n] + s[n..];
  }

  /** A masked text is the text with its SSN matches replaced, and then the card candidates that pass Luhn. */
  lemma HardDenyReplaces(s: string) returns (first: seq<Piece>, second: seq<Piece>)
    ensures IsSsnScan(false, s, first) && TextOf(first) == s
    ensures IsCardScan(false, Replaced(first), second) && TextOf(second) == Replaced(first)
    ensures HardDenyValue(s) == CardsReplaced(second)
  {
    first := SsnPassReplaces(false, s);
    second := CardPassReplaces(false, RedactSsn(false, s));
  }

  // ---- what is kept ----

  lemma {:induction false} FailingAreKept(afterWord: bool, s: string)
    requires forall c | c in Candidates(afterWord, s) :: !LuhnValid(DigitsOf(c))
    ensures RedactPan(afterWord, s) == s
    decreases |s|
  {
    if s != "" {
      var found := PanMatch(afterWord, s);
      if found.None? {
        FailingAreKept(IsWord(s[0]), s[1..]);
        assert s == [s[0]] + s[1..];
      } else {
        PanMatchEnds(afterWord, s);
        var n := found.value;
        assert Candidates(afterWord, s)[0] == s[..n];
        assert forall c | c in Candidates(true, s[n..]) :: c in Candidates(afterWord, s);
        FailingAreKept(true, s[n..]);
        assert s == s[..n] + s[n..];
      }
    }
  }

  /** A text is left as it is exactly if it has no SSN and no card candidate that passes Luhn. */
  lemma KeptIffClean(s: string)
    ensures HardDenyValue(s) == s <==> Clean(s)
  {
    if HardDenyValue(s) == s {
      NoSsnIsLeft(s);
      CandidatesLeftFailLuhn(s);
    }
    if Clean(s) {
      SsnPassFixesIff(false, s);
      FailingAreKept(false, s);
    }
  }
}
