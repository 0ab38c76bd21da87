// The three field-extraction regular expressions of the vision service,
//   /\*\*<label>\s*([^*\n]+)\*\*/i   (disease status, specific disease)
//   /\*\*<label>\s*(\d+)%?\*\*/i     (confidence)
// as used by `String.prototype.match` without the global flag: the leftmost
// match wins, and at that position the greedy `\s*` takes as much whitespace
// as still lets the rest of the pattern match.
//
// `Matches` and `IsFirstMatch` say declaratively what a match is; `FirstMatch`
// is the backtracking search, proved to find exactly the first match.
module LabelRegex {
  import opened Wrappers
  import opened JsString

  /** The capture group that follows `\s*`, with what may close it. */
  datatype Group =
    | Text    // ([^*\n]+)\*\*
    | Digits  // (\d+)%?\*\*

  /** `\*\*` + label (case-insensitive) + `\s*` + group. */
  datatype Pattern = Pattern(heading: string, group: Group)

  /** A match starting at `start` whose capture group is `t[capStart..capEnd]`. */
  datatype Match = Match(start: nat, capStart: nat, capEnd: nat)

  /**
   * Case folding of the `i` flag (without `u`) for ASCII pattern characters:
   * no non-ASCII character folds onto an ASCII one.
   */
  function FoldCase(c: char): char {
    if 'a' <= c <= 'z' then (c as int - 32) as char else c
  }

  /** `\*\*` followed by `heading`, case-insensitively, at index `p`. */
  predicate LabelAt(t: string, heading: string, p: nat) {
    p + 2 + |heading| <= |t| && t[p] == '*' && t[p + 1] == '*'
    && forall k :: 0 <= k < |heading| ==> FoldCase(t[p + 2 + k]) == FoldCase(heading[k])
  }

  /** The character class of the capture group. */
  predicate InGroup(g: Group, c: char) {
    match g
    case Text => c != '*' && c != '\n'
    case Digits => IsDigit(c)
  }

  /** `\*\*` at index `i`. */
  predicate ClosesAt(t: string, i: nat) {
    i + 2 <= |t| && t[i] == '*' && t[i + 1] == '*'
  }

  /** What follows the group: `\*\*`, or `%?\*\*` for digits. */
  predicate Closes(t: string, g: Group, e: nat) {
    match g
    case Text => ClosesAt(t, e)
    case Digits => ClosesAt(t, e) || (e < |t| && t[e] == '%' && ClosesAt(t, e + 1))
  }

  /** From index `q`: whitespace up to `s`, the group's characters on `[s, e)`, then the closing. */
  ghost predicate GroupAt(t: string, g: Group, q: nat, s: nat, e: nat) {
    && q <= s < e <= |t|
    && (forall i :: q <= i < s ==> IsSpace(t[i]))
    && (forall i :: s <= i < e ==> InGroup(g, t[i]))
    && Closes(t, g, e)
  }

  /** The pattern matches at `p` with capture group `t[s..e]`. */
  ghost predicate Matches(t: string, pat: Pattern, p: nat, s: nat, e: nat) {
    LabelAt(t, pat.heading, p) && GroupAt(t, pat.group, p + 2 + |pat.heading|, s, e)
  }

  /** The match that `text.match(re)` reports: leftmost, and greedy in `\s*`. */
  ghost predicate IsFirstMatch(t: string, pat: Pattern, p: nat, s: nat, e: nat) {
    && Matches(t, pat, p, s, e)
    && (forall p': nat, s': nat, e': nat :: p' < p ==> !Matches(t, pat, p', s', e'))
    && (forall s': nat, e': nat :: s < s' ==> !Matches(t, pat, p, s', e'))
  }

  /** `text.match(re)` is `null`. */
  ghost predicate NoMatch(t: string, pat: Pattern) {
    forall p: nat, s: nat, e: nat :: !Matches(t, pat, p, s, e)
  }

  /** End of the whitespace run that starts at `i`. */
  function SpaceEnd(t: string, i: nat): (j: nat)
    requires i <= |t|
    ensures i <= j <= |t|
    ensures forall k :: i <= k < j ==> IsSpace(t[k])
    ensures j < |t| ==> !IsSpace(t[j])
    decreases |t| - i
  {
    if i < |t| && IsSpace(t[i]) then SpaceEnd(t, i + 1) else i
  }

  /** End of the run of group characters that starts at `i`. */
  function RunEnd(t: string, g: Group, i: nat): (j: nat)
    requires i <= |t|
    ensures i <= j <= |t|
    ensures forall k :: i <= k < j ==> InGroup(g, t[k])
    ensures j < |t| ==> !InGroup(g, t[j])
    decreases |t| - i
  {
    if i < |t| && InGroup(g, t[i]) then RunEnd(t, g, i + 1) else i
  }

  /**
   * Backtracking over `\s*`: the group is tried from `s`, and then from
   * each shorter whitespace prefix down to `q`. The greedy group itself never
   * needs to give characters back, since the character it would give back is
   * never the start of the closing.
   */
  function TryGroup(t: string, g: Group, q: nat, s: nat): (r: Option<(nat, nat)>)
    requires q <= s <= |t|
    ensures r.Some? ==> q <= r.value.0 < r.value.1 <= |t|
    decreases s - q
  {
    var e := RunEnd(t, g, s);
    if s < e && Closes(t, g, e) then Some((s, e))
    else if s == q then None
    else TryGroup(t, g, q, s - 1)
  }

  /** The attempt at start index `p`: the label, then the group with backtracking over `\s*`. */
  function TryAt(t: string, pat: Pattern, p: nat): (r: Option<(nat, nat)>)
    ensures r.Some? ==> r.value.0 < r.value.1 <= |t|
  {
    if LabelAt(t, pat.heading, p) then
      var q := p + 2 + |pat.heading|;
      TryGroup(t, pat.group, q, SpaceEnd(t, q))
    else None
  }

  /** The regex engine's scan over start positions from `p` onwards. */
  function FindFrom(t: string, pat: Pattern, p: nat): (r: Option<Match>)
    requires p <= |t|
    ensures r.Some? ==> r.value.capStart < r.value.capEnd <= |t|
    decreases |t| - p
  {
    if p == |t| then None
    else match TryAt(t, pat, p)
      case Some(c) => Some(Match(p, c.0, c.1))
      case None => FindFrom(t, pat, p + 1)
  }

  /** How a field written for the pattern opens: `**`, the label, one space. */
  function Opening(pat: Pattern): string {
    "**" + pat.heading + " "
  }

  /** `text.match(re)`: what it reports is a first match, and `null` only when there is no match. */
  function FirstMatch(t: string, pat: Pattern): (r: Option<Match>)
    ensures r.None? ==> NoMatch(t, pat)
    ensures r.Some? ==> IsFirstMatch(t, pat, r.value.start, r.value.capStart, r.value.capEnd)
  {
    FindFromCorrect(t, pat, 0);
    FindFrom(t, pat, 0)
  }

  /** `text.match(re)?.[1]`: the first capture group, if the pattern matches. */
  function Capture(t: string, pat: Pattern): (r: Option<string>)
    ensures r.Some? ==> |r.value| > 0 && forall i :: 0 <= i < |r.value| ==> InGroup(pat.group, r.value[i])
  {
    FindFromCorrect(t, pat, 0);
    match FirstMatch(t, pat)
    case None => None
    case Some(m) => Some(t[m.capStart..m.capEnd])
  }

  /** Given where the group starts, where it ends is fixed: at the end of the run. */
  lemma GroupEnd(t: string, g: Group, q: nat, s: nat, e: nat)
    requires GroupAt(t, g, q, s, e)
    ensures e == RunEnd(t, g, s)
  {
  }

  /** `TryGroup` finds the largest group start in `[q, s]`, and nothing when there is none. */
  lemma {:induction false} TryGroupCorrect(t: string, g: Group, q: nat, s: nat)
    requires q <= s <= |t|
    requires forall i :: q <= i < s ==> IsSpace(t[i])
    ensures var r := TryGroup(t, g, q, s);
      && (r.Some? ==> r.value.0 <= s && GroupAt(t, g, q, r.value.0, r.value.1)
                      && forall s': nat, e': nat :: r.value.0 < s' <= s ==> !GroupAt(t, g, q, s', e'))
      && (r.None? ==> forall s': nat, e': nat :: s' <= s ==> !GroupAt(t, g, q, s', e'))
    decreases s - q
  {
    var e := RunEnd(t, g, s);
    forall e': nat | GroupAt(t, g, q, s, e') ensures s < e && Closes(t, g, e) {
      GroupEnd(t, g, q, s, e');
    }
    if s < e && Closes(t, g, e) {
    } else if s == q {
    } else {
      TryGroupCorrect(t, g, q, s - 1);
    }
  }

  /** The attempt at `p` finds the greedy match at `p`, and nothing when the pattern cannot match there. */
  lemma TryAtCorrect(t: string, pat: Pattern, p: nat)
    ensures var r := TryAt(t, pat, p);
      && (r.Some? ==> Matches(t, pat, p, r.value.0, r.value.1)
                      && forall s': nat, e': nat :: r.value.0 < s' ==> !Matches(t, pat, p, s', e'))
      && (r.None? ==> forall s': nat, e': nat :: !Matches(t, pat, p, s', e'))
  {
    if LabelAt(t, pat.heading, p) {
      var q := p + 2 + |pat.heading|;
      var w := SpaceEnd(t, q);
      TryGroupCorrect(t, pat.group, q, w);
    }
  }

  /** `FindFrom` returns the first match at or after `p`, greedy in its whitespace. */
  lemma {:induction false} FindFromCorrect(t: string, pat: Pattern, p: nat)
    requires p <= |t|
    ensures var r := FindFrom(t, pat, p);
      && (r.Some? ==> p <= r.value.start && Matches(t, pat, r.value.start, r.value.capStart, r.value.capEnd)
                      && (forall p': nat, s': nat, e': nat :: p <= p' < r.value.start ==> !Matches(t, pat, p', s', e'))
                      && (forall s': nat, e': nat :: r.value.capStart < s' ==> !Matches(t, pat, r.value.start, s', e')))
      && (r.None? ==> forall p': nat, s': nat, e': nat :: p <= p' ==> !Matches(t, pat, p', s', e'))
    decreases |t| - p
  {
    var r := FindFrom(t, pat, p);
    if p == |t| {
      forall p': nat, s': nat, e': nat | p <= p' ensures !Matches(t, pat, p', s', e') {
        assert !LabelAt(t, pat.heading, p');
      }
    } else {
      TryAtCorrect(t, pat, p);
      if TryAt(t, pat, p).None? {
        FindFromCorrect(t, pat, p + 1);
        assert r == FindFrom(t, pat, p + 1);
        forall p': nat, s': nat, e': nat | p' == p ensures !Matches(t, pat, p', s', e') {
        }
      }
    }
  }

  /** `FirstMatch` reports exactly the leftmost, greedy match, and nothing when there is no match. */
  lemma FirstMatchCorrect(t: string, pat: Pattern)
    ensures FirstMatch(t, pat).None? <==> NoMatch(t, pat)
    ensures forall p: nat, s: nat, e: nat ::
      FirstMatch(t, pat) == Some(Match(p, s, e)) <==> IsFirstMatch(t, pat, p, s, e)
  {
    FindFromCorrect(t, pat, 0);
    var r := FirstMatch(t, pat);
    forall p: nat, s: nat, e: nat | IsFirstMatch(t, pat, p, s, e)
      ensures r == Some(Match(p, s, e))
    {
      var m := r.value;
      assert m.start == p;
      assert m.capStart == s;
      GroupEnd(t, pat.group, p + 2 + |pat.heading|, s, e);
      GroupEnd(t, pat.group, p + 2 + |pat.heading|, s, m.capEnd);
    }
  }

  /** A match whose start has no label before it, and whose group starts at a non-space, is the first match. */
  lemma FirstMatchAt(t: string, pat: Pattern, p: nat, s: nat, e: nat)
    requires Matches(t, pat, p, s, e)
    requires forall p': nat :: p' < p ==> !LabelAt(t, pat.heading, p')
    requires !IsSpace(t[s])
    ensures FirstMatch(t, pat) == Some(Match(p, s, e))
    ensures Capture(t, pat) == Some(t[s..e])
  {
    FirstMatchCorrect(t, pat);
    assert IsFirstMatch(t, pat, p, s, e);
  }

  /**
   * A labelled field written as `**<label> <value>` followed by its closing is
   * what the pattern captures, when no label occurs before it.
   */
  lemma CaptureOfField(t: string, pat: Pattern, before: string, v: string, after: string)
    requires t == before + Opening(pat) + v + after
    requires |v| > 0 && !IsSpace(v[0]) && forall i :: 0 <= i < |v| ==> InGroup(pat.group, v[i])
    requires Closes(t, pat.group, |before| + 3 + |pat.heading| + |v|)
    requires forall p': nat :: p' < |before| ==> !LabelAt(t, pat.heading, p')
    ensures Capture(t, pat) == Some(v)
  {
    var h := pat.heading;
    var p := |before|;
    var q := p + 2 + |h|;
    var s := q + 1;
    var e := s + |v|;
    var open := Opening(pat);
    forall k | 0 <= k < |open| ensures t[p + k] == open[k] { }
    forall k | 0 <= k < |h| ensures t[p + 2 + k] == h[k] {
      assert open[2 + k] == h[k];
    }
    forall i | s <= i < e ensures t[i] == v[i - s] { }
    assert GroupAt(t, pat.group, q, s, e);
    FirstMatchAt(t, pat, p, s, e);
    assert t[s..e] == v;
  }

  /** No label can start where there is no `*`. */
  lemma NoLabelWithoutStar(t: string, heading: string, lo: nat, hi: nat)
    requires forall i :: lo <= i < hi && i < |t| ==> t[i] != '*'
    ensures forall p: nat :: lo <= p < hi ==> !LabelAt(t, heading, p)
  {
  }
}
