/** The quick-add dialog (app/components/QuickAddModal.js): a task title typed with an
    optional session estimate such as `3s`, which is read out of the text, removed from the
    title, and highlighted while typing. */
module QuickAdd {
  import opened Options
  import opened Text

  /** The regular expression `/(?:^|\s)(\d+)s(?:\s|$)/` matches starting at `p` with the
      digits `s[d..j]` captured: either at the very start, or from a white-space character,
      a run of digits followed by `s`, then white space or the end of the text. */
  predicate MatchesAt(s: string, p: nat, d: nat, j: nat) {
    && (d == p == 0 || (p < |s| && d == p + 1 && IsSpace(s[p])))
    && d < j < |s| && AllDigits(s[d..j]) && s[j] == 's'
    && (j + 1 == |s| || IsSpace(s[j + 1]))
  }

  /** No match of the pattern starts before `p`. */
  ghost predicate NoMatchBefore(s: string, p: nat) {
    forall q: nat, d: nat, j: nat :: q < p ==> !MatchesAt(s, q, d, j)
  }

  /** A match: it covers `s[start..end]` (including the white space it consumed) and its
      digits are `s[digitsStart..digitsEnd]`. */
  datatype Match = Match(start: nat, digitsStart: nat, digitsEnd: nat, end: nat)

  predicate ValidMatch(s: string, m: Match) {
    && MatchesAt(s, m.start, m.digitsStart, m.digitsEnd)
    && m.end == (if m.digitsEnd + 1 < |s| then m.digitsEnd + 2 else m.digitsEnd + 1)
  }

  /** `(\d+)s(?:\s|$)` starting with the digit at `d`. */
  predicate TokenFrom(s: string, d: nat)
    requires d <= |s|
  {
    d < |s| && IsDigit(s[d]) &&
    var e := DigitRunEnd(s, d);
    e < |s| && s[e] == 's' && (e + 1 == |s| || IsSpace(s[e + 1]))
  }

  lemma DigitsSlice(s: string, d: nat, j: nat)
    requires d <= j <= |s|
    ensures AllDigits(s[d..j]) <==> forall k :: d <= k < j ==> IsDigit(s[k])
  {
    if AllDigits(s[d..j]) {
      forall k | d <= k < j ensures IsDigit(s[k]) {
        assert s[k] == s[d..j][k - d];
      }
    }
  }

  /** The regular expression tried at position `p`, alternatives in their written order. */
  function TryAt(s: string, p: nat): (r: Option<Match>)
    requires p <= |s|
    ensures r.Some? ==> r.value.start == p && ValidMatch(s, r.value)
  {
    if p == 0 && TokenFrom(s, 0) then
      var e := DigitRunEnd(s, 0);
      DigitsSlice(s, 0, e);
      Some(Match(0, 0, e, if e + 1 < |s| then e + 2 else e + 1))
    else if p < |s| && IsSpace(s[p]) && TokenFrom(s, p + 1) then
      var e := DigitRunEnd(s, p + 1);
      DigitsSlice(s, p + 1, e);
      Some(Match(p, p + 1, e, if e + 1 < |s| then e + 2 else e + 1))
    else None
  }

  /** Whenever the pattern can match at `p`, trying at `p` finds a match. */
  lemma TryAtComplete(s: string, p: nat, d: nat, j: nat)
    requires p <= |s| && MatchesAt(s, p, d, j)
    ensures TryAt(s, p).Some?
  {
    DigitsSlice(s, d, j);
    DigitRunEndIs(s, d, j);
    assert TokenFrom(s, d);
  }

  /** At a given start the pattern can match in one way only. */
  lemma MatchUnique(s: string, p: nat, d: nat, j: nat, d': nat, j': nat)
    requires MatchesAt(s, p, d, j) && MatchesAt(s, p, d', j')
    ensures d == d' && j == j'
  {
    DigitsSlice(s, d, j);
    DigitsSlice(s, d', j');
    if p == 0 && d == 0 {
      assert IsDigit(s[0]) && !IsSpace(s[0]);
    }
    if p == 0 && d' == 0 {
      assert IsDigit(s[0]) && !IsSpace(s[0]);
    }
    DigitRunEndIs(s, d, j);
    DigitRunEndIs(s, d, j');
  }

  function FindFrom(s: string, p: nat): (r: Option<Match>)
    requires p <= |s|
    ensures r.Some? ==> p <= r.value.start <= |s| && TryAt(s, r.value.start) == r
    ensures r.Some? ==> forall q :: p <= q < r.value.start ==> TryAt(s, q).None?
    ensures r.None? ==> forall q :: p <= q <= |s| ==> TryAt(s, q).None?
    decreases |s| - p
  {
    if TryAt(s, p).Some? then TryAt(s, p)
    else if p == |s| then None
    else FindFrom(s, p + 1)
  }

  /** `input.match(/(?:^|\s)(\d+)s(?:\s|$)/)`: the leftmost match, if any. */
  function FindToken(s: string): (r: Option<Match>)
    ensures r.Some? ==> ValidMatch(s, r.value)
  {
    FindFrom(s, 0)
  }

  /** The match found is the leftmost one, and there is none when none is found. */
  lemma FindTokenSpec(s: string)
    ensures FindToken(s).Some? ==>
      ValidMatch(s, FindToken(s).value) && NoMatchBefore(s, FindToken(s).value.start)
    ensures FindToken(s).None? ==> forall p: nat, d: nat, j: nat :: !MatchesAt(s, p, d, j)
  {
    var r := FindToken(s);
    if r.Some? {
      forall q: nat, d: nat, j: nat | q < r.value.start ensures !MatchesAt(s, q, d, j) {
        if MatchesAt(s, q, d, j) {
          TryAtComplete(s, q, d, j);
        }
      }
    } else {
      forall p: nat, d: nat, j: nat ensures !MatchesAt(s, p, d, j) {
        if MatchesAt(s, p, d, j) {
          TryAtComplete(s, p, d, j);
        }
      }
    }
  }

  /** The effect on `input`: the number written in the first match, or 0. */
  function SessionCount(s: string): nat {
    match FindToken(s)
    case Some(m) => DigitsValue(s[m.digitsStart..m.digitsEnd])
    case None => 0
  }

  /** The session count is the value of the digits of the leftmost match of the pattern,
      and 0 when nothing matches. */
  lemma SessionCountSpec(s: string)
    ensures (forall p: nat, d: nat, j: nat :: !MatchesAt(s, p, d, j)) ==> SessionCount(s) == 0
    ensures forall p: nat, d: nat, j: nat :: MatchesAt(s, p, d, j) && NoMatchBefore(s, p) ==>
      SessionCount(s) == DigitsValue(s[d..j])
  {
    FindTokenSpec(s);
    forall p: nat, d: nat, j: nat | MatchesAt(s, p, d, j) && NoMatchBefore(s, p)
      ensures SessionCount(s) == DigitsValue(s[d..j])
    {
      var m := FindToken(s).value;
      assert !(m.start < p);
      assert !(p < m.start);
      MatchUnique(s, p, d, j, m.digitsStart, m.digitsEnd);
    }
  }

  /** A number glued to other text (`abc3s`, `3sx`) is not an estimate. */
  lemma GluedNumbersIgnored()
    ensures SessionCount("abc3s") == 0
    ensures SessionCount("3sx") == 0
  {
    assert FindToken("abc3s") == None;
    assert FindToken("3sx") == None;
  }

  /** `input.replace(/(?:^|\s)(\d+)s(?:\s|$)/, ' ').trim()`: the first match, with the white
      space it consumed, becomes one space, and the result is trimmed. */
  function CleanTitle(s: string): (r: string)
    ensures Trimmed(r)
    ensures FindToken(s).Some? ==> |r| < |s|
  {
    match FindToken(s)
    case Some(m) => Trim(s[..m.start] + " " + s[m.end..])
    case None => Trim(s)
  }

  /** `cleanTitle || input` */
  function SubmittedTitle(s: string): string {
    var c := CleanTitle(s);
    if c == "" then s else c
  }

  /** Text with something besides white space is never submitted with an empty title;
      without an estimate the title is the trimmed text. */
  lemma SubmittedTitleSpec(s: string)
    requires !AllSpace(s)
    ensures SubmittedTitle(s) != ""
    ensures FindToken(s).None? ==> SubmittedTitle(s) == Trim(s) && Trimmed(SubmittedTitle(s))
  {
    assert s != [];
  }

  /** A match with no match before it is the one found. */
  lemma LeftmostFound(s: string, p: nat, d: nat, j: nat)
    requires MatchesAt(s, p, d, j) && NoMatchBefore(s, p)
    ensures FindToken(s).Some? && FindToken(s).value.start == p
    ensures FindToken(s).value.digitsStart == d && FindToken(s).value.digitsEnd == j
    ensures ValidMatch(s, FindToken(s).value)
  {
    FindTokenSpec(s);
    var m := FindToken(s).value;
    assert !(p < m.start);
    assert !(m.start < p);
    MatchUnique(s, p, d, j, m.digitsStart, m.digitsEnd);
  }

  /** A token between two runs of white space matches from the last white-space character
      before it (or from the start), and nothing matches earlier. */
  lemma SpacedTokenMatches(w1: string, d: string, w2: string)
    requires AllSpace(w1) && AllSpace(w2) && d != [] && AllDigits(d)
    ensures MatchesAt(w1 + d + "s" + w2, if w1 == [] then 0 else |w1| - 1, |w1|, |w1| + |d|)
    ensures NoMatchBefore(w1 + d + "s" + w2, if w1 == [] then 0 else |w1| - 1)
  {
    var s := w1 + d + "s" + w2;
    var p := if w1 == [] then 0 else |w1| - 1;
    var j := |w1| + |d|;
    assert s[|w1|..j] == d;
    assert s[j] == 's';
    assert j + 1 < |s| ==> s[j + 1] == w2[0];
    assert w1 != [] ==> s[p] == w1[p];
    forall q: nat, d': nat, j': nat | q < p ensures !MatchesAt(s, q, d', j') {
      assert s[0] == w1[0] && s[q + 1] == w1[q + 1];
      if d' < j' <= |s| {
        assert s[d'..j'][0] == s[d'];
      }
    }
  }

  /** The pieces of `w1 + d + "s" + w2` the proofs below cut out of it. */
  lemma SpacedTokenPieces(w1: string, d: string, w2: string)
    ensures (w1 + d + "s" + w2)[|w1|..|w1| + |d|] == d
    ensures |w1| > 0 ==> (w1 + d + "s" + w2)[..|w1| - 1] == w1[..|w1| - 1]
    ensures |w2| > 0 ==> (w1 + d + "s" + w2)[|w1| + |d| + 2..] == w2[1..]
  {
    var s := w1 + d + "s" + w2;
    assert s == w1 + (d + ("s" + w2));
  }

  /** The match found in such a text: from the last white space before the digits (or the
      start), through the white-space character after the `s`, if there is one. */
  lemma SpacedTokenFound(w1: string, d: string, w2: string)
    requires AllSpace(w1) && AllSpace(w2) && d != [] && AllDigits(d)
    ensures FindToken(w1 + d + "s" + w2) == Some(Match(
      if w1 == [] then 0 else |w1| - 1, |w1|, |w1| + |d|,
      if w2 == [] then |w1| + |d| + 1 else |w1| + |d| + 2))
  {
    SpacedTokenMatches(w1, d, w2);
    LeftmostFound(w1 + d + "s" + w2, if w1 == [] then 0 else |w1| - 1, |w1|, |w1| + |d|);
  }

  /** Removing such a token leaves only white space, so the cleaned title is empty. */
  lemma SpacedTokenCleansAway(w1: string, d: string, w2: string)
    requires AllSpace(w1) && AllSpace(w2) && d != [] && AllDigits(d)
    ensures |CleanTitle(w1 + d + "s" + w2)| == 0
  {
    var s := w1 + d + "s" + w2;
    var p := if w1 == [] then 0 else |w1| - 1;
    var tail := if w2 == [] then [] else w2[1..];
    SpacedTokenFound(w1, d, w2);
    SpacedTokenPieces(w1, d, w2);
    SpacesAround(w1, p, w2);
    CleanTitleBlank(s, w1[..p] + " " + tail);
  }

  lemma SpacesAround(w1: string, p: nat, w2: string)
    requires AllSpace(w1) && AllSpace(w2) && p <= |w1|
    ensures AllSpace(w1[..p] + " " + (if w2 == [] then [] else w2[1..]))
  {
    var c := w1[..p] + " " + (if w2 == [] then [] else w2[1..]);
    forall k | 0 <= k < |c| ensures IsSpace(c[k]) {
      if k < p {
        assert c[k] == w1[k];
      } else if k > p {
        assert c[k] == w2[k - p];
      }
    }
  }

  /** When what is left once the match is replaced by a space is blank, the title is empty. */
  lemma CleanTitleBlank(s: string, c: string)
    requires FindToken(s).Some?
    requires s[..FindToken(s).value.start] + " " + s[FindToken(s).value.end..] == c && AllSpace(c)
    ensures |CleanTitle(s)| == 0
  {
  }

  lemma SpacedTokenCount(w1: string, d: string, w2: string)
    requires AllSpace(w1) && AllSpace(w2) && d != [] && AllDigits(d)
    ensures SessionCount(w1 + d + "s" + w2) == DigitsValue(d)
  {
    SpacedTokenFound(w1, d, w2);
    SpacedTokenPieces(w1, d, w2);
    SessionCountOf(w1 + d + "s" + w2, |w1|, |w1| + |d|, d);
  }

  /** The session count is the value of the digits of the match found. */
  lemma SessionCountOf(s: string, i: nat, j: nat, d: string)
    requires FindToken(s).Some? && FindToken(s).value.digitsStart == i && FindToken(s).value.digitsEnd == j
    requires i <= j <= |s| && s[i..j] == d && AllDigits(d)
    ensures SessionCount(s) == DigitsValue(d)
  {
  }

  /** Text that is nothing but an estimate (`12s`), with any white space around it, keeps the
      whole text, white space included, as its title; the estimate is still read out of it. */
  lemma OnlyTokenKeepsInput(w1: string, d: string, w2: string)
    requires AllSpace(w1) && AllSpace(w2) && d != [] && AllDigits(d)
    ensures SubmittedTitle(w1 + d + "s" + w2) == w1 + d + "s" + w2
    ensures SessionCount(w1 + d + "s" + w2) == DigitsValue(d)
  {
    SpacedTokenCount(w1, d, w2);
    SpacedTokenCleansAway(w1, d, w2);
  }

  /** What `onAdd` receives. */
  datatype Draft = Draft(title: string, sessions: int)

  /** `/^\d+s$/`: the whole text is digits followed by `s`. */
  predicate IsToken(t: string) {
    |t| >= 2 && AllDigits(t[..|t| - 1]) && t[|t| - 1] == 's'
  }

  /** `/\d+s/` matches starting at `q`. */
  predicate TokenStartsAt(s: string, q: nat)
    requires q <= |s|
  {
    q < |s| && IsDigit(s[q]) && DigitRunEnd(s, q) < |s| && s[DigitRunEnd(s, q)] == 's'
  }

  /** `String.prototype.split` with `/(\d+s)/g`, scanning from `q` with the current piece
      starting at `p`: every match is kept as a piece of its own between the text around it. */
  function SplitFrom(s: string, p: nat, q: nat): seq<string>
    requires p <= q <= |s|
    decreases |s| - q
  {
    if q == |s| then [s[p..]]
    else if TokenStartsAt(s, q) then
      var e := DigitRunEnd(s, q) + 1;
      [s[p..q], s[q..e]] + SplitFrom(s, e, e)
    else SplitFrom(s, p, q + 1)
  }

  /** `input.split(/(\d+s)/g)` */
  function Split(s: string): seq<string> {
    SplitFrom(s, 0, 0)
  }

  function Concat(parts: seq<string>): string {
    if parts == [] then "" else parts[0] + Concat(parts[1..])
  }

  lemma {:induction false} ConcatAppend(a: seq<string>, b: seq<string>)
    ensures Concat(a + b) == Concat(a) + Concat(b)
  {
    if a == [] {
      assert a + b == b;
    } else {
      assert (a + b)[0] == a[0];
      assert (a + b)[1..] == a[1..] + b;
      ConcatAppend(a[1..], b);
    }
  }

  lemma ConcatPair(x: string, y: string)
    ensures Concat([x, y]) == x + y
  {
    assert [x, y][1..] == [y];
    assert [y][1..] == [];
    assert Concat([y]) == y + Concat([]);
    assert y + [] == y;
  }

  lemma SliceSplit(s: string, p: nat, q: nat, e: nat)
    requires p <= q <= e <= |s|
    ensures s[p..] == s[p..q] + s[q..e] + s[e..]
  {
  }

  lemma {:induction false} SplitFromConcat(s: string, p: nat, q: nat)
    requires p <= q <= |s|
    ensures Concat(SplitFrom(s, p, q)) == s[p..]
    decreases |s| - q
  {
    if q == |s| {
      assert Concat([s[p..]]) == s[p..] + Concat([]);
    } else if TokenStartsAt(s, q) {
      var e := DigitRunEnd(s, q) + 1;
      var rest := SplitFrom(s, e, e);
      assert SplitFrom(s, p, q) == [s[p..q], s[q..e]] + rest;
      SplitFromConcat(s, e, e);
      ConcatAppend([s[p..q], s[q..e]], rest);
      ConcatPair(s[p..q], s[q..e]);
      SliceSplit(s, p, q, e);
    } else {
      SplitFromConcat(s, p, q + 1);
    }
  }

  /** A piece that is a whole token would have been matched where it starts. */
  lemma TokenSliceStarts(s: string, p: nat, q: nat)
    requires p <= q <= |s| && IsToken(s[p..q])
    ensures TokenStartsAt(s, p)
  {
    var t := s[p..q];
    forall k | p <= k < q - 1 ensures IsDigit(s[k]) {
      assert s[k] == t[..|t| - 1][k - p];
    }
    assert s[q - 1] == t[|t| - 1];
    DigitRunEndIs(s, p, q - 1);
  }

  /** The pieces alternate: text at even positions, matches at odd ones. */
  lemma {:induction false} SplitFromShape(s: string, p: nat, q: nat)
    requires p <= q <= |s|
    requires forall k :: p <= k < q ==> !TokenStartsAt(s, k)
    ensures |SplitFrom(s, p, q)| % 2 == 1
    ensures forall i :: 0 <= i < |SplitFrom(s, p, q)| ==>
      (IsToken(SplitFrom(s, p, q)[i]) <==> i % 2 == 1)
    decreases |s| - q
  {
    var parts := SplitFrom(s, p, q);
    if q == |s| {
      assert s[p..] == s[p..|s|];
      if IsToken(s[p..]) {
        TokenSliceStarts(s, p, |s|);
      }
    } else if TokenStartsAt(s, q) {
      var e := DigitRunEnd(s, q) + 1;
      SplitFromShape(s, e, e);
      if IsToken(s[p..q]) {
        TokenSliceStarts(s, p, q);
      }
      var t := s[q..e];
      forall k | 0 <= k < |t| - 1 ensures IsDigit(t[k]) {
        assert t[k] == s[q + k];
      }
      assert t[..|t| - 1] == s[q..e - 1];
      assert IsToken(t);
      var rest := SplitFrom(s, e, e);
      assert parts == [s[p..q], t] + rest;
      forall i | 0 <= i < |parts| ensures IsToken(parts[i]) <==> i % 2 == 1 {
        if i >= 2 {
          assert parts[i] == rest[i - 2];
        }
      }
    } else {
      SplitFromShape(s, p, q + 1);
    }
  }

  /** One span of the highlighted rendering. */
  datatype Segment = Segment(text: string, highlighted: bool)

  /** `renderHighlightedInput()`: the split pieces, each marked when it is a whole token. */
  function Highlight(s: string): (r: seq<Segment>)
    ensures |r| == |Split(s)| && forall i :: 0 <= i < |r| ==> r[i].text == Split(s)[i]
  {
    seq(|Split(s)|, i requires 0 <= i < |Split(s)| => Segment(Split(s)[i], IsToken(Split(s)[i])))
  }

  function Texts(segs: seq<Segment>): seq<string> {
    seq(|segs|, i requires 0 <= i < |segs| => segs[i].text)
  }

  /** The highlighted rendering loses and adds nothing: its spans put back together give the
      input, and exactly the spans at odd positions, which are the estimates, are marked. */
  lemma HighlightSpec(s: string)
    ensures Concat(Texts(Highlight(s))) == s
    ensures forall i :: 0 <= i < |Highlight(s)| ==>
      (Highlight(s)[i].highlighted <==> IsToken(Highlight(s)[i].text)) &&
      (Highlight(s)[i].highlighted <==> i % 2 == 1)
  {
    assert Texts(Highlight(s)) == Split(s);
    SplitFromConcat(s, 0, 0);
    SplitFromShape(s, 0, 0);
  }

  class QuickAddModal {
    var input: string
    var sessions: int
    /** The argument of every `onAdd` call, oldest first. */
    var added: seq<Draft>
    /** How many times `onClose` was called. */
    var closes: nat

    constructor ()
      ensures input == "" && sessions == 0 && added == [] && closes == 0
    {
      input, sessions, added, closes := "", 0, [], 0;
    }

    /** The input's `onChange`. */
    method OnChange(value: string)
      modifies this`input
      ensures input == value
    {
      input := value;
    }

    /** The effect that runs when `input` changes. */
    method ParseSessions()
      modifies this`sessions
      ensures sessions == SessionCount(input)
    {
      var m := FindToken(input);
      if m.Some? {
        sessions := DigitsValue(input[m.value.digitsStart..m.value.digitsEnd]);
      } else {
        sessions := 0;
      }
    }

    /** `handleSubmit`: white-space-only text is ignored; otherwise the cleaned title and
        the parsed estimate are handed to `onAdd`, the dialog is cleared and closed. */
    method HandleSubmit()
      modifies this`input, this`sessions, this`added, this`closes
      ensures AllSpace(old(input)) ==>
        input == old(input) && sessions == old(sessions) && added == old(added) && closes == old(closes)
      ensures !AllSpace(old(input)) ==>
        added == old(added) + [Draft(SubmittedTitle(old(input)), old(sessions))] &&
        input == "" && sessions == 0 && closes == old(closes) + 1
    {
      var text := input;
      // `!input.trim()`: by the contract of `Trim`, the trimmed text is empty exactly when
      // the text is all white space.
      if AllSpace(text) {
        return;
      }
      var draft := Draft(SubmittedTitle(text), sessions);
      added := added + [draft];
      input := "";
      sessions := 0;
      closes := closes + 1;
    }
  }

  /** Typing a text and submitting it hands `onAdd` the estimate read from that text. */
  method TypeAndSubmit(q: QuickAddModal, text: string)
    requires !AllSpace(text)
    modifies q`input, q`sessions, q`added, q`closes
    ensures q.added == old(q.added) + [Draft(SubmittedTitle(text), SessionCount(text))]
    ensures q.input == "" && q.sessions == 0
  {
    q.OnChange(text);
    q.ParseSessions();
    q.HandleSubmit();
  }
}
