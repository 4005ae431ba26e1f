/** The template conversion script: every paragraph and table-cell line of a
  * legacy letter template is rewritten by six ordered rules into the
  * `{{name}}` placeholder syntax of the document generator.
  *
  * The regular expressions are modelled by explicit scanners over
  * `seq<char>`: `Sub` is Python's `re.sub` (leftmost, non-overlapping
  * matches, scanning left to right), and each pattern is a matcher that gives
  * the length of its match at the start of a text (0 for no match; none of the
  * patterns matches the empty text). `.` does not match a newline. */
module ConvertDocuments {
  import opened Text
  import opened Seqs

  const CaseReference: string := "{{caseReference}}"
  const CurrentDate: string := "{{currentDate}}"

  // ---------------------------------------------------------------------
  // re.sub

  /** The six patterns of the script, in the order the rules apply them. */
  datatype Pattern = BvReference | CaseReferenceTag | MessageTag | ShowTag | DateField | Placeholder

  /** Length of the pattern's match at the start of t; 0 when it does not match there. */
  function MatchLength(pat: Pattern, t: string): (n: nat)
    ensures n <= |t|
  {
    match pat
    case BvReference => BvMatch(t)
    case CaseReferenceTag => CaseReferenceMatch(t)
    case MessageTag => TagMatch(t, "[&Message", "]")
    case ShowTag => TagMatch(t, "[&Show", "]")
    case DateField => TagMatch(t, "[DATE:DS(\"", "\")]")
    case Placeholder => TagMatch(t, "[", "]")
  }

  /** The replacement text of each rule for a match. */
  function Replacement(pat: Pattern, matched: string): string {
    match pat
    case BvReference => FixedReplacement(pat)
    case CaseReferenceTag => FixedReplacement(pat)
    case MessageTag => ""
    case ShowTag => ""
    case DateField => CurrentDate
    case Placeholder => PlaceholderText(matched)
  }

  /** `re.sub(pattern, repl, s)`: at each position either the pattern matches
    * and its match is replaced, or one character is copied. */
  function Sub(s: string, pat: Pattern): string
    decreases |s|
  {
    if s == [] then []
    else
      var n := MatchLength(pat, s);
      if n == 0 then [s[0]] + Sub(s[1..], pat)
      else Replacement(pat, s[..n]) + Sub(s[n..], pat)
  }

  /** A stretch where the pattern matches nowhere is copied unchanged. */
  lemma {:induction false} SubCopyPrefix(s: string, k: nat, pat: Pattern)
    requires k <= |s|
    requires forall i :: 0 <= i < k ==> MatchLength(pat, s[i..]) == 0
    ensures Sub(s, pat) == s[..k] + Sub(s[k..], pat)
    decreases k
  {
    if k > 0 {
      assert s[0..] == s;
      forall i | 0 <= i < k - 1 ensures MatchLength(pat, s[1..][i..]) == 0 {
        assert s[1..][i..] == s[i + 1..];
      }
      SubCopyPrefix(s[1..], k - 1, pat);
      assert s[1..][k - 1..] == s[k..];
      TakeCons(s, k);
      AppendAssoc([s[0]], s[1..][..k - 1], Sub(s[k..], pat));
    }
  }

  /** A text the pattern matches nowhere in is left as it is. */
  lemma SubUnchanged(s: string, pat: Pattern)
    requires forall i :: 0 <= i < |s| ==> MatchLength(pat, s[i..]) == 0
    ensures Sub(s, pat) == s
  {
    SubCopyPrefix(s, |s|, pat);
    assert s[..|s|] == s;
  }

  /** The literal that starts every match of rules 1 and 2. */
  function Literal(pat: Pattern): string
    requires pat == BvReference || pat == CaseReferenceTag
  {
    if pat == BvReference then "BV [MT05]" else "[MT05]"
  }

  /** The replacement of rules 1 and 2, the same for every match. */
  function FixedReplacement(pat: Pattern): string
    requires pat == BvReference || pat == CaseReferenceTag
  {
    if pat == BvReference then "BV {{caseReference}}" else CaseReference
  }

  /** Rules 1 and 2 match exactly where their literal starts. */
  lemma LiteralMatches(pat: Pattern)
    requires pat == BvReference || pat == CaseReferenceTag
    ensures forall t :: MatchLength(pat, t) > 0 <==> StartsWith(t, Literal(pat))
    ensures forall t :: Replacement(pat, t) == FixedReplacement(pat)
  {
  }

  /** The literal's first character occurs in it only once and does not
    * occur in the replacement after its first character, nor does the
    * replacement's first character occur in the rest of the literal; the
    * replacement itself does not start with the literal. */
  lemma LiteralShape(pat: Pattern)
    requires pat == BvReference || pat == CaseReferenceTag
    ensures var p, rep := Literal(pat), FixedReplacement(pat);
      |p| >= 2 && |p| <= |rep| && rep[..|p|] != p
      && p[0] !in p[1..] && rep[0] !in p[1..] && p[0] !in rep[1..]
  {
    if pat == BvReference {
      BvShape(Literal(pat), FixedReplacement(pat));
    } else {
      CaseReferenceShape(Literal(pat), FixedReplacement(pat));
    }
  }

  lemma BvShape(p: string, rep: string)
    requires p == "BV [MT05]" && rep == "BV {{caseReference}}"
    ensures |p| >= 2 && |p| <= |rep| && rep[..|p|] != p
    ensures p[0] !in p[1..] && rep[0] !in p[1..] && p[0] !in rep[1..]
  {
    assert p[0] == 'B' && rep[0] == 'B';
    assert p[1..] == "V [MT05]" && rep[1..] == "V {{caseReference}}";
    assert 'B' !in "V [MT05]" && 'B' !in "V {{caseReference}}";
    assert rep[..|p|][3] != p[3];
  }

  lemma CaseReferenceShape(p: string, rep: string)
    requires p == "[MT05]" && rep == CaseReference
    ensures |p| >= 2 && |p| <= |rep| && rep[..|p|] != p
    ensures p[0] !in p[1..] && rep[0] !in p[1..] && p[0] !in rep[1..]
  {
    assert p[1..] == "MT05]" && rep[1..] == "{caseReference}}";
    assert rep[..|p|][0] != p[0];
  }

  /** After rules 1 and 2 substitute, no occurrence of their literal is left. */
  lemma {:induction false} SubRemovesLiteral(s: string, pat: Pattern)
    requires pat == BvReference || pat == CaseReferenceTag
    ensures !Contains(Sub(s, pat), Literal(pat))
    decreases |s|
  {
    if s == [] {
      assert !StartsWith(Sub(s, pat)[0..], Literal(pat));
    } else if MatchLength(pat, s) > 0 {
      var n := MatchLength(pat, s);
      SubRemovesLiteral(s[n..], pat);
      LiteralMatches(pat);
      LiteralShape(pat);
      PrefixStartsNoOccurrence(FixedReplacement(pat), Sub(s[n..], pat), Literal(pat));
    } else {
      SubRemovesLiteral(s[1..], pat);
      CopiedCharStartsNoLiteral(s, pat);
      ContainsAppend([s[0]], Sub(s[1..], pat), Literal(pat));
    }
  }

  /** The first character of rule 1's or rule 2's output is either the
    * text's own first character or the first of the replacement. */
  lemma SubHead(s: string, pat: Pattern)
    requires pat == BvReference || pat == CaseReferenceTag
    requires s != []
    ensures Sub(s, pat) != []
    ensures MatchLength(pat, s) == 0 ==> Sub(s, pat)[0] == s[0]
    ensures MatchLength(pat, s) > 0 ==> Sub(s, pat)[0] == FixedReplacement(pat)[0]
  {
    LiteralMatches(pat);
  }

  /** Where the pattern does not match, the copied first character starts no
    * occurrence of the literal in the output: the text departs from the
    * literal before the next match, and that match's replacement departs too. */
  lemma CopiedCharStartsNoLiteral(s: string, pat: Pattern)
    requires pat == BvReference || pat == CaseReferenceTag
    requires s != [] && MatchLength(pat, s) == 0
    ensures !StartsWith(([s[0]] + Sub(s[1..], pat))[0..], Literal(pat))
  {
    var p := Literal(pat);
    var out := [s[0]] + Sub(s[1..], pat);
    assert out[0..] == out;
    if s[0] != p[0] {
      MismatchAt(out, p, 0);
    } else {
      LiteralShape(pat);
      var j := FirstMismatch(s, p);
      LiteralRun(s, pat, j);
      if j < |s| {
        SubHead(s[j..], pat);
        assert p[j] == p[1..][j - 1];
      }
      MismatchAt(out, p, j);
    }
  }

  /** The characters after the first that follow the literal cannot start a
    * match, so they are copied as they are. */
  lemma LiteralRun(s: string, pat: Pattern, j: nat)
    requires pat == BvReference || pat == CaseReferenceTag
    requires 1 <= j <= |s| && j < |Literal(pat)|
    requires forall i :: 0 <= i < j ==> s[i] == Literal(pat)[i]
    ensures var out := [s[0]] + Sub(s[1..], pat);
      |out| >= j && (j == |s| ==> |out| == j)
      && (j < |s| ==> Sub(s[j..], pat) != [] && |out| > j && out[j] == Sub(s[j..], pat)[0])
  {
    var p := Literal(pat);
    LiteralMatches(pat);
    LiteralShape(pat);
    forall i | 0 <= i < j - 1 ensures MatchLength(pat, s[1..][i..]) == 0 {
      assert s[1..][i..][0] == p[1..][i];
    }
    SubCopyPrefix(s[1..], j - 1, pat);
    assert s[1..][j - 1..] == s[j..];
    if j < |s| {
      SubHead(s[j..], pat);
    }
  }

  /** Where a text that starts like p, but not with all of p, first departs from it. */
  lemma FirstMismatch(s: string, p: string) returns (j: nat)
    requires s != [] && p != [] && s[0] == p[0] && !StartsWith(s, p)
    ensures 1 <= j <= |s| && j < |p|
    ensures forall i :: 0 <= i < j ==> s[i] == p[i]
    ensures j < |s| ==> s[j] != p[j]
  {
    j := 1;
    while j < |s| && j < |p| && s[j] == p[j]
      invariant 1 <= j <= |s| && j <= |p|
      invariant forall i :: 0 <= i < j ==> s[i] == p[i]
    {
      j := j + 1;
    }
  }

  // ---------------------------------------------------------------------
  // Lazy `.*?` up to a closing token

  /** The lazy `.*?closer` starting at `from`: the nearest position where
    * `closer` begins, provided no newline comes first. */
  function FindCloser(s: string, from: nat, closer: string): (r: Option<nat>)
    requires from <= |s| && closer != [] && closer[0] != '\n'
    ensures r.Some? ==> from <= r.value && r.value + |closer| <= |s|
    ensures r.Some? ==> StartsWith(s[r.value..], closer) && '\n' !in s[from..r.value]
    ensures r.Some? ==> forall i :: from <= i < r.value ==> !StartsWith(s[i..], closer)
    ensures r.None? ==> forall i :: from <= i <= |s| && '\n' !in s[from..i] ==> !StartsWith(s[i..], closer)
    decreases |s| - from
  {
    if StartsWith(s[from..], closer) then Some(from)
    else if from == |s| then None
    else if s[from] == '\n' then
      assert forall i :: from < i <= |s| ==> s[from..i][0] == '\n';
      None
    else
      var r := FindCloser(s, from + 1, closer);
      assert forall i :: from < i <= |s| ==> s[from..i] == [s[from]] + s[from + 1..i];
      r
  }

  /** A delimited pattern `opener.*?closer`: the length of its match at the start of t. */
  function TagMatch(t: string, opener: string, closer: string): (n: nat)
    requires opener != [] && closer != [] && closer[0] != '\n'
    ensures n <= |t|
    ensures n > 0 ==> StartsWith(t, opener)
  {
    if StartsWith(t, opener) then
      match FindCloser(t, |opener|, closer)
      case Some(i) => i + |closer|
      case None => 0
    else 0
  }

  /** A tag followed, on the same line, by its closer is matched up to that
    * nearest closer. */
  lemma TagMatchAt(opener: string, inner: string, closer: string, q: string)
    requires opener != [] && closer != [] && closer[0] != '\n'
    requires closer[0] !in inner && '\n' !in inner
    ensures TagMatch(opener + inner + closer + q, opener, closer) == |opener| + |inner| + |closer|
  {
    var t := opener + inner + closer + q;
    var c := |opener| + |inner|;
    assert t[..|opener|] == opener;
    assert t[c..][..|closer|] == closer;
    assert t[|opener|..c] == inner;
    forall i | |opener| <= i < c ensures !StartsWith(t[i..], closer) {
      assert t[i..][0] == inner[i - |opener|];
    }
  }

  // ---------------------------------------------------------------------
  // Rule 1: `BV [MT05]` becomes `BV {{caseReference}}`

  function BvMatch(t: string): (n: nat)
    ensures n <= |t|
    ensures n > 0 <==> StartsWith(t, "BV [MT05]")
  {
    if StartsWith(t, "BV [MT05]") then 9 else 0
  }

  /** After rule 1 no literal `BV [MT05]` is left. */
  lemma BvReferencesReplaced(s: string)
    ensures !Contains(Sub(s, BvReference), "BV [MT05]")
  {
    SubRemovesLiteral(s, BvReference);
  }

  // ---------------------------------------------------------------------
  // Rule 2: `[MT05]`, with an optional `.*[MT11(...)]` tail, becomes
  // `{{caseReference}}`, but only when the guard search finds a `[MT05]`
  // followed either by `[MT11` later on its line or by a word character.

  /** Some `[MT11` starts later on the first line of u (`.*\[MT11`). */
  ghost predicate Mt11Ahead(u: string) {
    exists k :: 0 <= k <= |u| && '\n' !in u[..k] && StartsWith(u[k..], "[MT11")
  }

  lemma Mt11AheadShift(u: string)
    requires u != [] && u[0] != '\n' && !StartsWith(u, "[MT11")
    ensures Mt11Ahead(u) <==> Mt11Ahead(u[1..])
  {
    if Mt11Ahead(u) {
      var k :| 0 <= k <= |u| && '\n' !in u[..k] && StartsWith(u[k..], "[MT11");
      assert u[0..] == u;
      Mt11AheadDrop(u, k);
    }
    if Mt11Ahead(u[1..]) {
      var k :| 0 <= k <= |u[1..]| && '\n' !in u[1..][..k] && StartsWith(u[1..][k..], "[MT11");
      Mt11AheadCons(u, k);
    }
  }

  lemma Mt11AheadDrop(u: string, k: nat)
    requires 0 < k <= |u| && '\n' !in u[..k] && StartsWith(u[k..], "[MT11")
    ensures '\n' !in u[1..][..k - 1] && StartsWith(u[1..][k - 1..], "[MT11")
  {
    TakeCons(u, k);
    assert u[1..][k - 1..] == u[k..];
  }

  lemma Mt11AheadCons(u: string, k: nat)
    requires u != [] && u[0] != '\n' && k <= |u| - 1
    requires '\n' !in u[1..][..k] && StartsWith(u[1..][k..], "[MT11")
    ensures '\n' !in u[..k + 1] && StartsWith(u[k + 1..], "[MT11")
  {
    TakeCons(u, k + 1);
    assert u[k + 1..] == u[1..][k..];
  }

  /** The scan for `.*\[MT11` on the rest of a line. */
  function ScanMt11(u: string): (r: bool)
    ensures r <==> Mt11Ahead(u)
    decreases |u|
  {
    if StartsWith(u, "[MT11") then
      assert u[..0] == [] && u[0..] == u;
      true
    else if u == [] then
      assert forall k :: 0 <= k <= |u| ==> u[k..] == [];
      false
    else if u[0] == '\n' then
      assert forall k :: 0 < k <= |u| ==> u[..k][0] == '\n';
      assert u[0..] == u;
      false
    else
      Mt11AheadShift(u);
      ScanMt11(u[1..])
  }

  /** The guard `\[MT05\](?:.*\[MT11|\b)` matches at position i. The word
    * boundary right after `]` holds exactly when a word character follows. */
  ghost predicate GuardMatchesAt(s: string, i: int) {
    0 <= i <= |s| && StartsWith(s[i..], "[MT05]")
    && (Mt11Ahead(s[i + 6..]) || (i + 6 < |s| && IsWordChar(s[i + 6])))
  }

  lemma GuardShift(s: string, i: int)
    requires s != [] && 0 <= i
    ensures GuardMatchesAt(s[1..], i) <==> GuardMatchesAt(s, i + 1)
  {
    if i <= |s| - 1 {
      assert s[1..][i..] == s[i + 1..];
      if 6 <= |s[1..][i..]| {
        assert s[1..][i..][6..] == s[i + 7..];
      }
    }
  }

  /** `re.search` of the guard: does it match anywhere in s? */
  function GuardFires(s: string): (r: bool)
    ensures r <==> exists i :: GuardMatchesAt(s, i)
    decreases |s|
  {
    if s == [] then
      assert forall i :: GuardMatchesAt(s, i) ==> i == 0;
      false
    else if StartsWith(s, "[MT05]") && (ScanMt11(s[6..]) || (|s| > 6 && IsWordChar(s[6]))) then
      assert s[0..] == s;
      assert GuardMatchesAt(s, 0);
      true
    else
      assert s[0..] == s;
      var r := GuardFires(s[1..]);
      GuardsShifted(s);
      r
  }

  lemma GuardsShifted(s: string)
    requires s != [] && !GuardMatchesAt(s, 0)
    ensures (exists i :: GuardMatchesAt(s[1..], i)) <==> (exists i :: GuardMatchesAt(s, i))
  {
    if exists i :: GuardMatchesAt(s[1..], i) {
      var i :| GuardMatchesAt(s[1..], i);
      GuardShift(s, i);
    }
    if exists i :: GuardMatchesAt(s, i) {
      var i :| GuardMatchesAt(s, i);
      GuardShift(s, i - 1);
    }
  }

  /** The first line of u ends at the result (a newline there, or the end). */
  function LineEnd(u: string): (r: nat)
    ensures r <= |u| && '\n' !in u[..r] && (r < |u| ==> u[r] == '\n')
    decreases |u|
  {
    if u == [] || u[0] == '\n' then 0
    else
      var r := 1 + LineEnd(u[1..]);
      assert u[..r] == [u[0]] + u[1..][..r - 1];
      r
  }

  /** `\[MT11\(.*?\)\]` at position k of u: the end of its match, if any. */
  function Mt11GroupEnd(u: string, k: nat): Option<nat>
    requires k <= |u|
  {
    if StartsWith(u[k..], "[MT11(") then
      match FindCloser(u, k + 6, ")]")
      case Some(c) => Some(c + 2)
      case None => None
    else None
  }

  /** The greedy `.*` before `\[MT11\(`: the positions k, k-1, ..., 0 are tried
    * in turn, and the last one where the group matches is taken. */
  function LastGroupStart(u: string, k: nat): (r: Option<nat>)
    requires k <= |u|
    ensures r.Some? ==> r.value <= k && Mt11GroupEnd(u, r.value).Some?
    ensures r.Some? ==> forall j :: r.value < j <= k ==> Mt11GroupEnd(u, j).None?
    ensures r.None? ==> forall j :: 0 <= j <= k ==> Mt11GroupEnd(u, j).None?
    decreases k
  {
    if Mt11GroupEnd(u, k).Some? then Some(k)
    else if k == 0 then None
    else LastGroupStart(u, k - 1)
  }

  /** Length of the optional `(?:.*\[MT11\(.*?\)\])?` after `[MT05]` (0 when it is skipped). */
  function GroupLength(u: string): (n: nat)
    ensures n <= |u|
  {
    match LastGroupStart(u, LineEnd(u))
    case None => 0
    case Some(k) => Mt11GroupEnd(u, k).value
  }

  function CaseReferenceMatch(t: string): (n: nat)
    ensures n <= |t|
    ensures n > 0 <==> StartsWith(t, "[MT05]")
  {
    if StartsWith(t, "[MT05]") then 6 + GroupLength(t[6..]) else 0
  }

  /** Once rule 2's substitution runs, no `[MT05]` is left anywhere in the line,
    * including those the guard alone would not have matched. */
  lemma CaseReferencesReplaced(s: string)
    ensures !Contains(Sub(s, CaseReferenceTag), "[MT05]")
  {
    SubRemovesLiteral(s, CaseReferenceTag);
  }

  /** Every rule but the first needs a `[` where its match starts. */
  lemma FirstCharBlocks(t: string, pat: Pattern)
    requires pat != BvReference && t != [] && t[0] != '['
    ensures MatchLength(pat, t) == 0
  {
    var opener := if pat.CaseReferenceTag? then "[MT05]" else Opener(pat);
    if |opener| <= |t| {
      assert t[..|opener|][0] == t[0];
    }
  }

  /** Bracket-free text is copied by every rule. */
  lemma NoBracketNoMatch(s: string, pat: Pattern)
    requires '[' !in s
    ensures forall i :: 0 <= i < |s| ==> MatchLength(pat, s[i..]) == 0
  {
    forall i | 0 <= i < |s| ensures MatchLength(pat, s[i..]) == 0 {
      if pat == BvReference {
        if 9 <= |s[i..]| {
          assert s[i..][..9][3] == s[i + 3];
        }
      } else {
        assert s[i..][0] == s[i];
        FirstCharBlocks(s[i..], pat);
      }
    }
  }

  /** Nor can rule 1 match in a text without a `B`. */
  lemma NoBNoBvMatch(s: string)
    requires 'B' !in s
    ensures forall i :: 0 <= i < |s| ==> MatchLength(BvReference, s[i..]) == 0
  {
    forall i | 0 <= i < |s| ensures MatchLength(BvReference, s[i..]) == 0 {
      if 9 <= |s[i..]| {
        assert s[i..][..9][0] == s[i];
      }
    }
  }

  /** A prefix without `[` is copied by every rule but the first. */
  lemma SubSkipsPrefix(p: string, t: string, pat: Pattern)
    requires pat != BvReference && '[' !in p
    ensures Sub(p + t, pat) == p + Sub(t, pat)
  {
    var s := p + t;
    forall i | 0 <= i < |p| ensures MatchLength(pat, s[i..]) == 0 {
      assert s[i..][0] == p[i];
      FirstCharBlocks(s[i..], pat);
    }
    SubCopyPrefix(s, |p|, pat);
    assert s[..|p|] == p && s[|p|..] == t;
  }

  /** The lazy `.*?closer` stops at c when the closer starts there and
    * neither the closer nor a newline starts anywhere from `from` up to c. */
  lemma {:induction false} FindCloserFirst(s: string, from: nat, c: nat, closer: string)
    requires from <= c <= |s| && closer != [] && closer[0] != '\n'
    requires StartsWith(s[c..], closer) && '\n' !in s[from..c]
    requires forall i :: from <= i < c ==> !StartsWith(s[i..], closer)
    ensures FindCloser(s, from, closer) == Some(c)
    decreases c - from
  {
    if from < c {
      assert s[from..c] == [s[from]] + s[from + 1..c];
      FindCloserFirst(s, from + 1, c, closer);
    }
  }

  /** The lazy scan finds nothing when no closer starts before the line ends. */
  lemma {:induction false} FindCloserNone(s: string, from: nat, closer: string)
    requires from <= |s| && closer != [] && closer[0] != '\n'
    requires forall i :: from <= i <= |s| && '\n' !in s[from..i] ==> !StartsWith(s[i..], closer)
    ensures FindCloser(s, from, closer).None?
    decreases |s| - from
  {
    assert s[from..from] == [];
    if from < |s| && s[from] != '\n' {
      forall i | from + 1 <= i <= |s| && '\n' !in s[from + 1..i] ensures !StartsWith(s[i..], closer) {
        assert s[from..i] == [s[from]] + s[from + 1..i];
      }
      FindCloserNone(s, from + 1, closer);
    }
  }

  /** Text in front moves every closer the scan finds by its length. */
  lemma FindCloserShift(x: string, t: string, from: nat, closer: string)
    requires from <= |t| && closer != [] && closer[0] != '\n'
    ensures FindCloser(x + t, |x| + from, closer) ==
      if FindCloser(t, from, closer).Some? then Some(|x| + FindCloser(t, from, closer).value) else None
  {
    var r := FindCloser(t, from, closer);
    if r.Some? {
      ShiftFound(x, t, from, r.value, closer);
    } else {
      ShiftNotFound(x, t, from, closer);
    }
  }

  lemma {:induction false} ShiftFound(x: string, t: string, from: nat, c: nat, closer: string)
    requires from <= c <= |t| && closer != [] && closer[0] != '\n'
    requires StartsWith(t[c..], closer) && '\n' !in t[from..c]
    requires forall i :: from <= i < c ==> !StartsWith(t[i..], closer)
    ensures FindCloser(x + t, |x| + from, closer) == Some(|x| + c)
    decreases c - from
  {
    var u := x + t;
    assert u[|x| + from..] == t[from..];
    if from < c {
      assert t[from..c] == [t[from]] + t[from + 1..c];
      assert u[|x| + from] == t[from];
      ShiftFound(x, t, from + 1, c, closer);
    }
  }


  lemma ShiftNotFound(x: string, t: string, from: nat, closer: string)
    requires from <= |t| && closer != [] && closer[0] != '\n'
    requires forall i :: from <= i <= |t| && '\n' !in t[from..i] ==> !StartsWith(t[i..], closer)
    ensures FindCloser(x + t, |x| + from, closer).None?
  {
    var u := x + t;
    forall i | |x| + from <= i <= |u| && '\n' !in u[|x| + from..i] ensures !StartsWith(u[i..], closer) {
      assert u[i..] == t[i - |x|..];
      assert u[|x| + from..i] == t[from..i - |x|];
    }
    FindCloserNone(u, |x| + from, closer);
  }

  lemma Mt11GroupEndShift(x: string, t: string, j: nat)
    requires j <= |t|
    ensures Mt11GroupEnd(x + t, |x| + j) ==
      if Mt11GroupEnd(t, j).Some? then Some(|x| + Mt11GroupEnd(t, j).value) else None
  {
    assert (x + t)[|x| + j..] == t[j..];
    if StartsWith(t[j..], "[MT11(") {
      FindCloserShift(x, t, j + 6, ")]");
    }
  }

  /** Every group starting after position k, up to e, ends at `stop`. */
  ghost predicate LaterGroupsEndAt(u: string, k: nat, e: nat, stop: nat)
    requires e <= |u|
  {
    forall j :: k < j <= e ==> EndsAtOrNone(u, j, stop)
  }

  /** No group starts at j, or the one there ends at `stop`. */
  ghost predicate EndsAtOrNone(u: string, j: nat, stop: nat)
    requires j <= |u|
  {
    Mt11GroupEnd(u, j).None? || Mt11GroupEnd(u, j) == Some(stop)
  }

  /** The greedy choice, tried from e back to k, settles on a group ending at
    * `stop` when the group at k ends there and every group starting after k,
    * up to e, ends there too. */
  lemma {:induction false} LastGroupEndAt(u: string, k: nat, e: nat, stop: nat)
    requires k <= e <= |u| && Mt11GroupEnd(u, k) == Some(stop) && LaterGroupsEndAt(u, k, e, stop)
    ensures LastGroupStart(u, e).Some? && Mt11GroupEnd(u, LastGroupStart(u, e).value) == Some(stop)
    decreases e - k
  {
    if k < e {
      assert EndsAtOrNone(u, e, stop);
      if Mt11GroupEnd(u, e).None? {
        LastGroupEndAt(u, k, e - 1, stop);
      }
    }
  }

  lemma {:induction false} LineEndAppend(a: string, b: string)
    requires '\n' !in a
    ensures LineEnd(a + b) == |a| + LineEnd(b)
    decreases |a|
  {
    if a != [] {
      var u := a + b;
      assert u[0] == a[0] && a[0] in a;
      assert u[1..] == a[1..] + b;
      LineEndAppend(a[1..], b);
      assert LineEnd(u) == 1 + LineEnd(u[1..]);
    } else {
      assert a + b == b;
    }
  }

  /** No `[MT11(` starts on the first line of q. */
  ghost predicate NoGroupOnLine(q: string) {
    forall j :: 0 <= j < LineEnd(q) ==> !StartsWith(q[j..], "[MT11(")
  }

  /** In `[MT11(inner)]q`, the lazy `.*?\)\]` run from any point of inner
    * stops at the group's own `)]` when inner holds no `)]`. */
  lemma GroupCloser(inner: string, q: string, from: nat)
    requires '\n' !in inner && !Contains(inner, ")]") && 6 <= from <= 6 + |inner|
    ensures FindCloser("[MT11(" + inner + ")]" + q, from, ")]") == Some(6 + |inner|)
  {
    var t := "[MT11(" + inner + ")]" + q;
    var c := 6 + |inner|;
    assert t[c..][..2] == ")]";
    assert t[c] == ')';
    assert t[from..c] == inner[from - 6..];
    forall i | from <= i < c ensures !StartsWith(t[i..], ")]") {
      assert t[i] == inner[i - 6];
      if i + 2 <= c {
        assert !StartsWith(inner[i - 6..], ")]");
        assert t[i..][..2] == inner[i - 6..][..2];
      } else {
        assert t[i..][1] == t[c];
      }
    }
    FindCloserFirst(t, from, c, ")]");
  }

  /** The group at the start of `[MT11(inner)]q` ends after its own `)]`. */
  lemma GroupAtStart(inner: string, q: string)
    requires '\n' !in inner && !Contains(inner, ")]")
    ensures Mt11GroupEnd("[MT11(" + inner + ")]" + q, 0) == Some(|inner| + 8)
  {
    var t := "[MT11(" + inner + ")]" + q;
    assert t[0..] == t && t[..6] == "[MT11(";
    GroupCloser(inner, q, 6);
  }

  /** A group starting inside `[MT11(inner)]` ends where the first one does. */
  lemma GroupsInsideGroup(inner: string, q: string, j: nat)
    requires '\n' !in inner && !Contains(inner, ")]") && 0 < j < |inner| + 8
    ensures var t := "[MT11(" + inner + ")]" + q;
      Mt11GroupEnd(t, j).None? || Mt11GroupEnd(t, j) == Some(|inner| + 8)
  {
    var t := "[MT11(" + inner + ")]" + q;
    var c := 6 + |inner|;
    if 6 <= j && j + 6 <= c {
      GroupCloser(inner, q, j + 6);
    } else if 6 <= j < c {
      if |t| - j >= 6 {
        assert t[j..][..6][c - j] == t[c] == ')';
      }
    } else if |t| - j >= 6 {
      assert t[j..][..6][0] == t[j];
      assert j < 6 ==> t[j] == "[MT11("[j];
    }
  }

  /** No group starts in q before its first newline. */
  lemma NoGroupsAfterGroup(inner: string, q: string, j: nat)
    requires '\n' !in inner && NoGroupOnLine(q)
    requires |inner| + 8 <= j <= LineEnd("[MT11(" + inner + ")]" + q)
    ensures Mt11GroupEnd("[MT11(" + inner + ")]" + q, j).None?
  {
    var g := "[MT11(" + inner + ")]";
    var t := g + q;
    LineEndAppend(g, q);
    var i := j - |g|;
    assert t[j..] == q[i..];
    if i == LineEnd(q) && |q| - i >= 6 {
      assert q[i..][..6][0] == q[i];
    }
  }

  /** A group starting in `[MT11(inner)]q`, on its first line, ends where
    * the first one does. */
  lemma GroupsOnLine(inner: string, q: string, k: nat)
    requires '\n' !in inner && !Contains(inner, ")]") && NoGroupOnLine(q)
    requires 0 < k <= LineEnd("[MT11(" + inner + ")]" + q)
    ensures var t := "[MT11(" + inner + ")]" + q;
      Mt11GroupEnd(t, k).None? || Mt11GroupEnd(t, k) == Some(|inner| + 8)
  {
    if k < |inner| + 8 {
      GroupsInsideGroup(inner, q, k);
    } else {
      NoGroupsAfterGroup(inner, q, k);
    }
  }

  /** The same, seen from a prefix x without a newline. */
  lemma GroupAfterPrefix(x: string, t: string, k: nat, stop: nat)
    requires '\n' !in x && |x| < k <= LineEnd(x + t) && LaterGroupsEndAt(t, 0, LineEnd(t), stop)
    ensures Mt11GroupEnd(x + t, k).None? || Mt11GroupEnd(x + t, k) == Some(|x| + stop)
  {
    LineEndAppend(x, t);
    var i := k - |x|;
    assert 0 < i <= LineEnd(t);
    assert EndsAtOrNone(t, i, stop);
    Mt11GroupEndShift(x, t, i);
    assert |x| + i == k;
  }

  /** After `[MT05]`: text x on the same line, then a `[MT11(...)]` group
    * whose inner text holds no `)]`, then text whose first line opens no
    * further group. The optional part of rule 2 takes all of x and the
    * group: the greedy `.*` reaches the last `[MT11(` of the line, and the
    * lazy `.*?` stops at the first `)]` after it. */
  lemma GroupSpan(x: string, inner: string, q: string)
    requires '\n' !in x && '\n' !in inner && !Contains(inner, ")]") && NoGroupOnLine(q)
    ensures var g := "[MT11(" + inner + ")]";
      GroupLength(x + (g + q)) == |x| + |g|
  {
    var g := "[MT11(" + inner + ")]";
    var t := g + q;
    GroupAtStart(inner, q);
    forall j | 0 < j <= LineEnd(t) ensures EndsAtOrNone(t, j, |g|) {
      GroupsOnLine(inner, q, j);
    }
    assert LaterGroupsEndAt(t, 0, LineEnd(t), |g|);
    GroupLengthAfterPrefix(x, t, |g|);
  }

  /** When t opens a group ending at `stop` and every later group on its line
    * ends there too, the optional part after a newline-free x ends there. */
  lemma GroupLengthAfterPrefix(x: string, t: string, stop: nat)
    requires '\n' !in x && Mt11GroupEnd(t, 0) == Some(stop) && LaterGroupsEndAt(t, 0, LineEnd(t), stop)
    ensures GroupLength(x + t) == |x| + stop
  {
    PrefixGroup(x, t, stop);
    LaterGroupsAfterPrefix(x, t, stop);
    GroupLengthFrom(x + t, |x|, |x| + stop);
  }

  lemma PrefixGroup(x: string, t: string, stop: nat)
    requires '\n' !in x && Mt11GroupEnd(t, 0) == Some(stop)
    ensures |x| <= LineEnd(x + t) && Mt11GroupEnd(x + t, |x|) == Some(|x| + stop)
  {
    LineEndAppend(x, t);
    Mt11GroupEndShift(x, t, 0);
  }

  lemma LaterGroupsAfterPrefix(x: string, t: string, stop: nat)
    requires '\n' !in x && LaterGroupsEndAt(t, 0, LineEnd(t), stop)
    ensures LaterGroupsEndAt(x + t, |x|, LineEnd(x + t), |x| + stop)
  {
    var u := x + t;
    LineEndAppend(x, t);
    var shifted := |x| + stop;
    forall j | |x| < j <= LineEnd(u) ensures EndsAtOrNone(u, j, shifted) {
      GroupAfterPrefix(x, t, j, stop);
    }
  }

  /** The optional part ends where the group at k ends, when every later
    * group on the line ends there too. */
  lemma GroupLengthFrom(u: string, k: nat, stop: nat)
    requires k <= LineEnd(u) && Mt11GroupEnd(u, k) == Some(stop) && LaterGroupsEndAt(u, k, LineEnd(u), stop)
    ensures GroupLength(u) == stop
  {
    LastGroupEndAt(u, k, LineEnd(u), stop);
  }

  /** Rule 2's match at `[MT05]` followed by such a span takes all of it. */
  lemma CaseReferenceMatchSpan(x: string, inner: string, q: string)
    requires '\n' !in x && '\n' !in inner && !Contains(inner, ")]") && NoGroupOnLine(q)
    ensures var t := "[MT05]" + (x + ("[MT11(" + inner + ")]" + q));
      MatchLength(CaseReferenceTag, t) == |t| - |q|
  {
    var g := "[MT11(" + inner + ")]";
    var u := x + (g + q);
    var t := "[MT05]" + u;
    GroupSpan(x, inner, q);
    assert t[..6] == "[MT05]" && t[6..] == u;
  }

  lemma CaseReferenceAtStart(x: string, inner: string, q: string)
    requires '\n' !in x && '\n' !in inner && !Contains(inner, ")]") && NoGroupOnLine(q)
    ensures var t := "[MT05]" + (x + ("[MT11(" + inner + ")]" + q));
      Sub(t, CaseReferenceTag) == CaseReference + Sub(q, CaseReferenceTag)
  {
    var g := "[MT11(" + inner + ")]";
    var t := "[MT05]" + (x + (g + q));
    CaseReferenceMatchSpan(x, inner, q);
    AppendAssoc(x, g, q);
    AppendAssoc("[MT05]", x + g, q);
    var a := "[MT05]" + (x + g);
    assert t == a + q && |a| == |t| - |q|;
    assert (a + q)[|a|..] == q;
  }

  /** Rule 2 leaves text without `[MT05]` as it is. */
  lemma SubWithoutCaseReference(q: string)
    requires !Contains(q, "[MT05]")
    ensures Sub(q, CaseReferenceTag) == q
  {
    forall i | 0 <= i < |q| ensures MatchLength(CaseReferenceTag, q[i..]) == 0 {
      assert !StartsWith(q[i..], "[MT05]");
    }
    SubUnchanged(q, CaseReferenceTag);
  }

  /** `[MT05]`, any text on the same line, and a last `[MT11(...)]` are
    * replaced as one span; earlier `[MT11(...)]` groups inside x are
    * swallowed with it, and rule 2 goes on after the span. */
  lemma CaseReferenceSpan(p: string, x: string, inner: string, q: string)
    requires '[' !in p && '\n' !in x && '\n' !in inner && !Contains(inner, ")]") && NoGroupOnLine(q)
    ensures var g := "[MT11(" + inner + ")]";
      Sub(p + ("[MT05]" + (x + (g + q))), CaseReferenceTag) == p + (CaseReference + Sub(q, CaseReferenceTag))
    ensures var g := "[MT11(" + inner + ")]";
      !Contains(q, "[MT05]") ==> Sub(p + ("[MT05]" + (x + (g + q))), CaseReferenceTag) == p + (CaseReference + q)
  {
    var g := "[MT11(" + inner + ")]";
    SubSkipsPrefix(p, "[MT05]" + (x + (g + q)), CaseReferenceTag);
    CaseReferenceAtStart(x, inner, q);
    if !Contains(q, "[MT05]") {
      SubWithoutCaseReference(q);
    }
  }

  // ---------------------------------------------------------------------
  // Rule 3: a line naming a diary or history entry is dropped

  predicate IsDiaryLine(s: string) {
    Contains(s, "[&Diary") || Contains(s, "[&HISTORY")
  }

  // ---------------------------------------------------------------------
  // Rule 4: `[&Message...]` and `[&Show...]` tags are deleted

  function Opener(pat: Pattern): string
    requires pat.MessageTag? || pat.ShowTag? || pat.DateField? || pat.Placeholder?
  {
    match pat
    case MessageTag => "[&Message"
    case ShowTag => "[&Show"
    case DateField => "[DATE:DS(\""
    case Placeholder => "["
  }

  function Closer(pat: Pattern): string
    requires pat.MessageTag? || pat.ShowTag? || pat.DateField? || pat.Placeholder?
  {
    if pat.DateField? then "\")]" else "]"
  }

  /** A delimited tag whose closer follows on the same line is replaced as a
    * whole. */
  lemma TagReplaced(pat: Pattern, inner: string, q: string)
    requires pat.MessageTag? || pat.ShowTag? || pat.DateField? || pat.Placeholder?
    requires Closer(pat)[0] !in inner && '\n' !in inner
    ensures Sub(Opener(pat) + inner + Closer(pat) + q, pat)
         == Replacement(pat, Opener(pat) + inner + Closer(pat)) + Sub(q, pat)
  {
    var opener, closer := Opener(pat), Closer(pat);
    var tag := opener + inner + closer;
    TagMatchAt(opener, inner, closer, q);
    assert MatchLength(pat, tag + q) == |tag|;
    assert (tag + q)[..|tag|] == tag && (tag + q)[|tag|..] == q;
  }

  /** The same with text before the tag that holds no `[`. */
  lemma TagReplacedAfter(p: string, pat: Pattern, inner: string, q: string)
    requires pat.MessageTag? || pat.ShowTag? || pat.DateField? || pat.Placeholder?
    requires '[' !in p && Closer(pat)[0] !in inner && '\n' !in inner
    ensures Sub(p + Opener(pat) + inner + Closer(pat) + q, pat)
         == p + Replacement(pat, Opener(pat) + inner + Closer(pat)) + Sub(q, pat)
  {
    var opener, closer := Opener(pat), Closer(pat);
    var t := opener + inner + closer + q;
    SubSkipsPrefix(p, t, pat);
    TagReplaced(pat, inner, q);
    Associate5(p, opener, inner, closer, q);
    AppendAssoc(p, Replacement(pat, opener + inner + closer), Sub(q, pat));
  }

  lemma Associate5(a: string, b: string, c: string, d: string, e: string)
    ensures a + b + c + d + e == a + (b + c + d + e)
  {
    AppendAssoc(a, b, c);
    AppendAssoc(a, b + c, d);
    AppendAssoc(a, b + c + d, e);
  }

  /** A `[&Message...]` tag is deleted up to its nearest `]`; the text on
    * either side is kept. */
  lemma MessageTagDeleted(p: string, inner: string, q: string)
    requires '[' !in p && ']' !in inner && '\n' !in inner
    ensures Sub(p + "[&Message" + inner + "]" + q, MessageTag) == p + Sub(q, MessageTag)
  {
    TagReplacedAfter(p, MessageTag, inner, q);
    assert p + "" == p;
  }

  /** A `[&Show...]` tag is deleted up to its nearest `]`. */
  lemma ShowTagDeleted(p: string, inner: string, q: string)
    requires '[' !in p && ']' !in inner && '\n' !in inner
    ensures Sub(p + "[&Show" + inner + "]" + q, ShowTag) == p + Sub(q, ShowTag)
  {
    TagReplacedAfter(p, ShowTag, inner, q);
    assert p + "" == p;
  }

  // ---------------------------------------------------------------------
  // Rule 5: `[DATE:DS("...")]` becomes `{{currentDate}}`

  /** The lazy `.*?` of a date field stops at the first `")]`: a format text
    * holding no `")]` is matched whole, whatever quotes or parentheses it holds. */
  lemma DateMatchAt(format: string, q: string)
    requires !Contains(format, "\")]") && '\n' !in format
    ensures MatchLength(DateField, "[DATE:DS(\"" + format + "\")]" + q) == |"[DATE:DS(\""| + |format| + 3
  {
    var opener, closer := "[DATE:DS(\"", "\")]";
    var t := opener + format + closer + q;
    var c := |opener| + |format|;
    assert t[..|opener|] == opener;
    assert t[c..][..|closer|] == closer;
    assert t[|opener|..c] == format;
    assert t[c] == '"';
    forall i | |opener| <= i < c ensures !StartsWith(t[i..], closer) {
      var j := i - |opener|;
      if j + 3 <= |format| {
        assert !StartsWith(format[j..], closer);
        assert t[i..][..3] == format[j..][..3];
      } else if j + 1 == |format| {
        assert t[i..][1] == t[c];
      } else {
        assert t[i..][2] == t[c];
      }
    }
  }

  /** A date field is replaced by `{{currentDate}}` whatever its format text,
    * up to the first `")]` on its line. */
  lemma DateFieldReplaced(p: string, format: string, q: string)
    requires '[' !in p && !Contains(format, "\")]") && '\n' !in format
    ensures Sub(p + "[DATE:DS(\"" + format + "\")]" + q, DateField) == p + CurrentDate + Sub(q, DateField)
  {
    var tag := "[DATE:DS(\"" + format + "\")]";
    SubSkipsPrefix(p, tag + q, DateField);
    DateMatchAt(format, q);
    assert (tag + q)[..|tag|] == tag && (tag + q)[|tag|..] == q;
    Associate5(p, "[DATE:DS(\"", format, "\")]", q);
    AppendAssoc(p, CurrentDate, Sub(q, DateField));
  }

  // ---------------------------------------------------------------------
  // Rule 6: every remaining `[...]` becomes `{{...}}` with only its word
  // characters kept

  /** `convert_placeholder`: `{{` + the word characters of group 1 + `}}`. */
  function PlaceholderText(matched: string): (r: string)
    ensures |r| >= 4 && r[..2] == "{{" && r[|r| - 2..] == "}}"
    ensures forall i :: 2 <= i < |r| - 2 ==> IsWordChar(r[i])
    ensures '[' !in r && ']' !in r
  {
    var group := if |matched| >= 2 then matched[1..|matched| - 1] else [];
    var name := Keep(group, IsWordChar);
    var r := "{{" + name + "}}";
    assert forall i :: 2 <= i < |r| - 2 ==> r[i] == name[i - 2];
    r
  }

  /** A bracketed name is replaced by its word characters in double braces. */
  lemma PlaceholderReplaced(p: string, inner: string, q: string)
    requires '[' !in p && ']' !in inner && '\n' !in inner
    ensures Sub(p + "[" + inner + "]" + q, Placeholder)
         == p + PlaceholderText("[" + inner + "]") + Sub(q, Placeholder)
  {
    TagReplacedAfter(p, Placeholder, inner, q);
  }

  /** The text a placeholder becomes keeps the word characters between its brackets. */
  lemma PlaceholderTextOf(inner: string)
    ensures PlaceholderText("[" + inner + "]") == "{{" + Keep(inner, IsWordChar) + "}}"
  {
    assert ("[" + inner + "]")[1..|inner| + 1] == inner;
  }

  /** No `[` is followed by a `]` on the same line. */
  ghost predicate NoBracketPair(s: string) {
    forall i, j :: 0 <= i < j < |s| && s[i] == '[' && s[j] == ']' ==> '\n' in s[i + 1..j]
  }

  /** Every `]` comes after some newline. */
  ghost predicate ClosersAfterNewline(s: string) {
    forall j :: 0 <= j < |s| && s[j] == ']' ==> '\n' in s[..j]
  }

  lemma ClosersAfterNewlineTail(s: string)
    requires ClosersAfterNewline(s) && s != [] && s[0] != '\n'
    ensures ClosersAfterNewline(s[1..])
  {
    forall j | 0 <= j < |s| - 1 && s[1..][j] == ']' ensures '\n' in s[1..][..j] {
      assert s[j + 1] == ']';
      var k :| 0 <= k < j + 1 && s[..j + 1][k] == '\n';
      assert s[1..][..j][k - 1] == '\n';
    }
  }

  lemma ClosersAfterNewlineCons(c: char, x: string)
    requires ClosersAfterNewline(x) && c != ']'
    ensures ClosersAfterNewline([c] + x)
  {
    var out := [c] + x;
    forall j | 0 <= j < |out| && out[j] == ']' ensures '\n' in out[..j] {
      assert x[j - 1] == ']';
      var k :| 0 <= k < j - 1 && x[..j - 1][k] == '\n';
      assert out[..j][k + 1] == '\n';
    }
  }

  lemma ClosersAfterLeadingNewline(x: string)
    ensures ClosersAfterNewline(['\n'] + x)
  {
    var out := ['\n'] + x;
    forall j | 0 <= j < |out| && out[j] == ']' ensures '\n' in out[..j] {
      assert out[..j][0] == '\n';
    }
  }

  /** A `]` at r, in a text whose closers all follow a newline, has a
    * newline between the first character and itself. */
  lemma CloserNeedsNewline(s: string, r: nat)
    requires ClosersAfterNewline(s) && 0 < r <= |s| && s[0] != '\n' && StartsWith(s[r..], "]")
    ensures '\n' in s[1..r]
  {
    assert s[r..][..1][0] == s[r];
    var k :| 0 <= k < r && s[..r][k] == '\n';
    assert s[1..r][k - 1] == '\n';
  }

  /** Where every `]` follows a newline, no placeholder starts at a first
    * character that is not itself a newline. */
  lemma NoPlaceholderBeforeNewline(s: string)
    requires ClosersAfterNewline(s) && s != [] && s[0] != '\n'
    ensures MatchLength(Placeholder, s) == 0
  {
    if StartsWith(s, "[") {
      var r := FindCloser(s, 1, "]");
      if r.Some? {
        CloserNeedsNewline(s, r.value);
      }
    }
  }

  /** Rule 6 never adds a `]` that no newline precedes. */
  lemma {:induction false} PlaceholdersKeepClosersAfterNewline(s: string)
    requires ClosersAfterNewline(s)
    ensures ClosersAfterNewline(Sub(s, Placeholder))
    decreases |s|
  {
    if s != [] {
      if s[0] == '\n' {
        FirstCharBlocks(s, Placeholder);
        ClosersAfterLeadingNewline(Sub(s[1..], Placeholder));
      } else {
        NoPlaceholderBeforeNewline(s);
        ClosersAfterNewlineTail(s);
        PlaceholdersKeepClosersAfterNewline(s[1..]);
        ClosersAfterNewlineCons(s[0], Sub(s[1..], Placeholder));
      }
    }
  }

  /** Text without `[` in front keeps a text free of bracket pairs. */
  lemma NoPairAfterBracketless(e: string, x: string)
    requires '[' !in e && NoBracketPair(x)
    ensures NoBracketPair(e + x)
  {
    var out := e + x;
    forall i, j | 0 <= i < j < |out| && out[i] == '[' && out[j] == ']' ensures '\n' in out[i + 1..j] {
      assert i >= |e|;
      assert x[i - |e|] == '[' && x[j - |e|] == ']';
      assert out[i + 1..j] == x[i - |e| + 1..j - |e|];
    }
  }

  /** A `[` in front of a text whose closers all follow a newline makes no pair. */
  lemma NoPairAfterBracket(x: string)
    requires NoBracketPair(x) && ClosersAfterNewline(x)
    ensures NoBracketPair(['['] + x)
  {
    var out := ['['] + x;
    forall i, j | 0 <= i < j < |out| && out[i] == '[' && out[j] == ']' ensures '\n' in out[i + 1..j] {
      if i == 0 {
        assert x[j - 1] == ']';
        assert out[i + 1..j] == x[..j - 1];
      } else {
        assert x[i - 1] == '[' && x[j - 1] == ']';
        assert out[i + 1..j] == x[i..j - 1];
      }
    }
  }

  /** A `[` whose tag does not close on its line: every later `]` follows a newline. */
  lemma UnclosedBracket(s: string)
    requires StartsWith(s, "[") && FindCloser(s, 1, "]").None?
    ensures ClosersAfterNewline(s[1..])
  {
    forall j | 0 <= j < |s| - 1 && s[1..][j] == ']' ensures '\n' in s[1..][..j] {
      assert s[j + 1..][..1][0] == ']';
      assert s[1..][..j] == s[1..j + 1];
    }
  }

  /** After rule 6 no `[...]` is left on any one line. */
  lemma {:induction false} PlaceholdersLeaveNoPair(s: string)
    ensures NoBracketPair(Sub(s, Placeholder))
    decreases |s|
  {
    if s != [] {
      var n := MatchLength(Placeholder, s);
      if n > 0 {
        PlaceholdersLeaveNoPair(s[n..]);
        NoPairAfterBracketless(PlaceholderText(s[..n]), Sub(s[n..], Placeholder));
      } else {
        var x := Sub(s[1..], Placeholder);
        PlaceholdersLeaveNoPair(s[1..]);
        if s[0] == '[' {
          assert StartsWith(s, "[");
          UnclosedBracket(s);
          PlaceholdersKeepClosersAfterNewline(s[1..]);
          NoPairAfterBracket(x);
        } else {
          NoPairAfterBracketless([s[0]], x);
        }
      }
    }
  }

  // ---------------------------------------------------------------------
  // convert_line

  /** Rule 2: the substitution runs only when the guard finds a match. */
  function ApplyCaseReference(s: string): string {
    if GuardFires(s) then Sub(s, CaseReferenceTag) else s
  }

  /** Rules 4 to 6, applied to a line rule 3 keeps. */
  function ConvertKeptLine(s: string): string {
    Sub(Sub(Sub(Sub(s, MessageTag), ShowTag), DateField), Placeholder)
  }

  /** The six rules in their order. A line mentioning a diary or history
    * entry after rules 1 and 2 becomes the empty line. */
  function ConvertLine(line: string): (r: string)
    ensures NoBracketPair(r)
  {
    var afterRef := ApplyCaseReference(Sub(line, BvReference));
    if IsDiaryLine(afterRef) then ""
    else
      PlaceholdersLeaveNoPair(Sub(Sub(Sub(afterRef, MessageTag), ShowTag), DateField));
      ConvertKeptLine(afterRef)
  }

  lemma NoPatternNotContained(s: string, p: string)
    requires p != [] && p[0] !in s
    ensures !Contains(s, p)
  {
    forall i | 0 <= i <= |s| ensures !StartsWith(s[i..], p) {
      if i < |s| { assert s[i..][0] == s[i]; }
    }
  }

  /** Rules 4 to 6 leave a line without `[` unchanged. */
  lemma KeptLineWithoutBrackets(s: string)
    requires '[' !in s
    ensures ConvertKeptLine(s) == s
  {
    NoBracketNoMatch(s, MessageTag);
    SubUnchanged(s, MessageTag);
    NoBracketNoMatch(s, ShowTag);
    SubUnchanged(s, ShowTag);
    NoBracketNoMatch(s, DateField);
    SubUnchanged(s, DateField);
    NoBracketNoMatch(s, Placeholder);
    SubUnchanged(s, Placeholder);
  }

  /** Without any `[` the rule 2 guard finds nothing. */
  lemma GuardSilentWithoutBrackets(line: string)
    requires '[' !in line
    ensures !GuardFires(line)
  {
    forall i | 0 <= i < |line| ensures !GuardMatchesAt(line, i) {
      assert line[i..][0] == line[i];
    }
  }

  /** Without any `[` no diary or history marker is present. */
  lemma NoDiaryWithoutBrackets(line: string)
    requires '[' !in line
    ensures !IsDiaryLine(line)
  {
    NoPatternNotContained(line, "[&Diary");
    NoPatternNotContained(line, "[&HISTORY");
  }

  /** A line without any `[` comes through unchanged. */
  lemma ConvertLineWithoutBrackets(line: string)
    requires '[' !in line
    ensures ConvertLine(line) == line
  {
    NoBracketNoMatch(line, BvReference);
    SubUnchanged(line, BvReference);
    GuardSilentWithoutBrackets(line);
    assert ApplyCaseReference(Sub(line, BvReference)) == line;
    NoDiaryWithoutBrackets(line);
    KeptLineWithoutBrackets(line);
  }

  /** A line that names a diary or history entry, and holds no case reference
    * that rule 2 could widen over it, is dropped. */
  lemma ConvertLineDropsDiary(line: string)
    requires IsDiaryLine(line) && !Contains(line, "[MT05]")
    ensures ConvertLine(line) == ""
  {
    forall i | 0 <= i < |line| ensures MatchLength(BvReference, line[i..]) == 0 {
      if |line[i..]| >= 9 {
        assert line[i + 3..][..6] == line[i..][3..9];
      }
    }
    SubUnchanged(line, BvReference);
  }

  /** The case reference placeholder names no diary entry and comes through
    * rules 4 to 6 unchanged. */
  lemma CaseReferenceKept()
    ensures !IsDiaryLine(CaseReference) && ConvertKeptLine(CaseReference) == CaseReference
  {
    assert '[' !in CaseReference;
    NoPatternNotContained(CaseReference, "[&Diary");
    NoPatternNotContained(CaseReference, "[&HISTORY");
    KeptLineWithoutBrackets(CaseReference);
  }

  /** The guard fires on `[MT05]` followed on its line by `[MT11`. */
  lemma GuardBeforeGroup(x: string, g: string)
    requires '\n' !in x && StartsWith(g, "[MT11")
    ensures GuardFires("[MT05]" + (x + g))
  {
    var line := "[MT05]" + (x + g);
    assert line[0..] == line && line[..6] == "[MT05]";
    var u := line[6..];
    assert u == x + g && u[..|x|] == x && u[|x|..] == g;
    assert GuardMatchesAt(line, 0);
  }

  /** Rule 2 turns `[MT05]`, text x and a last `[MT11(...)]` on one line
    * into the case reference, and goes on with the rest of the text; with
    * nothing after the group the line is the case reference alone. */
  lemma CaseReferenceLine(x: string, inner: string, q: string)
    requires '\n' !in x && '\n' !in inner && !Contains(inner, ")]") && NoGroupOnLine(q)
    ensures ApplyCaseReference("[MT05]" + (x + ("[MT11(" + inner + ")]" + q))) ==
      CaseReference + Sub(q, CaseReferenceTag)
    ensures !Contains(q, "[MT05]") ==>
      ApplyCaseReference("[MT05]" + (x + ("[MT11(" + inner + ")]" + q))) == CaseReference + q
  {
    var g := "[MT11(" + inner + ")]";
    var line := "[MT05]" + (x + (g + q));
    assert (g + q)[..5] == "[MT11";
    GuardBeforeGroup(x, g + q);
    assert "" + line == line && "" + (CaseReference + Sub(q, CaseReferenceTag)) == CaseReference + Sub(q, CaseReferenceTag);
    CaseReferenceSpan("", x, inner, q);
  }

  /** Because rule 3 looks at the line only after rule 2, a diary marker lying
    * between `[MT05]` and a later `[MT11(...)]` on the same line, as in
    * `[MT05] [&Diary] [MT11(2)]`, is swallowed by the case reference and the
    * line is kept. */
  lemma DiaryMarkerInsideCaseReferenceSpan(x: string, inner: string)
    requires Contains(x, "[&Diary") && 'B' !in x && '\n' !in x
    requires 'B' !in inner && '\n' !in inner && !Contains(inner, ")]")
    ensures ConvertLine("[MT05]" + (x + ("[MT11(" + inner + ")]"))) == CaseReference
  {
    var g := "[MT11(" + inner + ")]";
    var line := "[MT05]" + (x + g);
    assert 'B' !in line;
    NoBNoBvMatch(line);
    SubUnchanged(line, BvReference);
    assert g + "" == g && CaseReference + "" == CaseReference;
    assert NoGroupOnLine("");
    assert !Contains("", "[MT05]");
    CaseReferenceLine(x, inner, "");
    CaseReferenceKept();
  }

  // A case reference that rule 2 does not take

  /** In `p[MT05]q` with no other `[`, the only `[` is the one of `[MT05]`. */
  lemma LoneBracket(p: string, q: string)
    requires '[' !in p && '[' !in q
    ensures var line := p + "[MT05]" + q;
      line == p + ("[MT05]" + q) && line[..|p|] == p && line[|p|..] == "[MT05]" + q
      && forall i :: 0 <= i < |line| && i != |p| ==> line[i] != '['
  {
    var line := p + "[MT05]" + q;
    forall i | 0 <= i < |line| && i != |p| ensures line[i] != '[' {
      if i < |p| {
        assert line[i] == p[i];
      } else if i >= |p| + 6 {
        assert line[i] == q[i - |p| - 6];
      } else {
        assert line[i] == "[MT05]"[i - |p|];
      }
    }
  }

  /** Rule 1 needs `BV ` right before the `[`, which p does not end with. */
  lemma LoneBvSilent(p: string, q: string)
    requires '[' !in p && '[' !in q && !EndsWith(p, "BV ")
    ensures Sub(p + "[MT05]" + q, BvReference) == p + "[MT05]" + q
  {
    var line := p + "[MT05]" + q;
    LoneBracket(p, q);
    forall i | 0 <= i < |line| ensures MatchLength(BvReference, line[i..]) == 0 {
      if |line[i..]| >= 9 {
        if i + 3 == |p| {
          assert line[i..][..3] == p[|p| - 3..];
          assert line[i..][..9][..3] == line[i..][..3];
        } else {
          assert line[i..][..9][3] == line[i + 3];
        }
      }
    }
    SubUnchanged(line, BvReference);
  }

  /** Without a `[` no `[MT11` lies ahead. */
  lemma NoMt11AheadWithoutBracket(q: string)
    requires '[' !in q
    ensures !Mt11Ahead(q)
  {
    forall k | 0 <= k <= |q| ensures !StartsWith(q[k..], "[MT11") {
      if k < |q| {
        assert q[k..][0] == q[k];
      }
    }
  }

  /** Without another `[` no `[MT11` follows, and the next character is no
    * word character, so the guard of rule 2 does not fire. */
  lemma LoneGuardSilent(p: string, q: string)
    requires '[' !in p && '[' !in q && (q == [] || !IsWordChar(q[0]))
    ensures !GuardFires(p + "[MT05]" + q)
  {
    var line := p + "[MT05]" + q;
    LoneBracket(p, q);
    NoMt11AheadWithoutBracket(q);
    assert line[|p| + 6..] == q;
    assert |p| + 6 < |line| ==> line[|p| + 6] == q[0];
    assert !GuardMatchesAt(line, |p|);
    forall i | 0 <= i <= |line| && i != |p| ensures !StartsWith(line[i..], "[MT05]") {
      if i < |line| {
        assert line[i..][0] == line[i];
      }
    }
  }

  /** The `[` of `[MT05]` is followed by `M`, so no diary or history marker. */
  lemma LoneNotDiary(p: string, q: string)
    requires '[' !in p && '[' !in q
    ensures !IsDiaryLine(p + "[MT05]" + q)
  {
    var line := p + "[MT05]" + q;
    LoneBracket(p, q);
    forall i | 0 <= i <= |line| ensures !StartsWith(line[i..], "[&Diary") && !StartsWith(line[i..], "[&HISTORY") {
      if i == |p| {
        assert line[i..][1] == 'M';
        if |line[i..]| >= 7 {
          assert line[i..][..7][1] == line[i..][1];
        }
      } else if i < |line| {
        assert line[i..][0] == line[i];
      }
    }
  }

  /** Rules 4 and 5 need `[&` or `[DATE` where `[MT05]` stands. */
  lemma LoneTagsSilent(p: string, q: string, pat: Pattern)
    requires pat.MessageTag? || pat.ShowTag? || pat.DateField?
    requires '[' !in p && '[' !in q
    ensures Sub(p + "[MT05]" + q, pat) == p + "[MT05]" + q
  {
    var t := "[MT05]" + q;
    LoneBracket(p, q);
    var opener := Opener(pat);
    if |opener| <= |t| {
      assert t[..|opener|][1] == t[1] == 'M';
    }
    assert MatchLength(pat, t) == 0;
    assert t[1..] == "MT05]" + q && '[' !in "MT05]";
    NoBracketNoMatch(t[1..], pat);
    SubUnchanged(t[1..], pat);
    assert [t[0]] + t[1..] == t;
    SubSkipsPrefix(p, t, pat);
  }

  /** A `[MT05]` with no `[MT11` after it on its line and no word character
    * right after it is left by rule 2; rule 6 then takes it for an ordinary
    * placeholder and writes `{{MT05}}`. */
  lemma LoneCaseReferenceFallsThrough(p: string, q: string)
    requires '[' !in p && '[' !in q && !EndsWith(p, "BV ") && (q == [] || !IsWordChar(q[0]))
    ensures ConvertLine(p + "[MT05]" + q) == p + "{{MT05}}" + q
  {
    var line := p + "[MT05]" + q;
    LoneBvSilent(p, q);
    LoneGuardSilent(p, q);
    assert ApplyCaseReference(Sub(line, BvReference)) == line;
    LoneNotDiary(p, q);
    LoneKept(p, q);
  }

  /** Rules 4 and 5 copy the line; rule 6 turns `[MT05]` into `{{MT05}}`. */
  lemma LoneKept(p: string, q: string)
    requires '[' !in p && '[' !in q
    ensures ConvertKeptLine(p + "[MT05]" + q) == p + "{{MT05}}" + q
  {
    var line := p + "[MT05]" + q;
    LoneTagsSilent(p, q, MessageTag);
    LoneTagsSilent(p, q, ShowTag);
    LoneTagsSilent(p, q, DateField);
    LabelPieces();
    WordPlaceholder(p, "MT05", q);
  }

  lemma LabelPieces()
    ensures "[" + "MT05" + "]" == "[MT05]" && "{{" + "MT05" + "}}" == "{{MT05}}"
    ensures forall i :: 0 <= i < |"MT05"| ==> IsWordChar("MT05"[i])
  {
  }

  /** A placeholder made only of word characters keeps its name. */
  lemma WordPlaceholder(p: string, w: string, q: string)
    requires '[' !in p && '[' !in q && forall i :: 0 <= i < |w| ==> IsWordChar(w[i])
    ensures Sub(p + ("[" + w + "]") + q, Placeholder) == p + ("{{" + w + "}}") + q
  {
    var name := "{{" + w + "}}";
    WordNameKept(w);
    PlaceholderReplaced(p, w, q);
    NoBracketNoMatch(q, Placeholder);
    SubUnchanged(q, Placeholder);
    AppendAssoc(p, "[", w);
    AppendAssoc(p, "[" + w, "]");
    Associate5(p, "{{", w, "}}", q);
    AppendAssoc(p, name, q);
  }

  lemma WordNameKept(w: string)
    requires forall i :: 0 <= i < |w| ==> IsWordChar(w[i])
    ensures ']' !in w && '\n' !in w && PlaceholderText("[" + w + "]") == "{{" + w + "}}"
  {
    PlaceholderTextOf(w);
    KeepAll(w, IsWordChar);
  }


  // ---------------------------------------------------------------------
  // process_docx and the directory scan

  /** Converts every line of a in place, first to last. */
  method ConvertAll(a: array<string>, convert: string -> string)
    modifies a
    ensures forall i :: 0 <= i < a.Length ==> a[i] == convert(old(a[i]))
  {
    var i := 0;
    while i < a.Length
      invariant 0 <= i <= a.Length
      invariant forall k :: 0 <= k < i ==> a[k] == convert(old(a[k]))
      invariant forall k :: i <= k < a.Length ==> a[k] == old(a[k])
    {
      a[i] := convert(a[i]);
      i := i + 1;
    }
  }

  /** Every paragraph, then every table cell, is rewritten in place. The
    * cells of all tables, rows and cells are taken as one array. */
  method ProcessDocument(paragraphs: array<string>, cells: array<string>)
    requires paragraphs != cells
    modifies paragraphs, cells
    ensures forall i :: 0 <= i < paragraphs.Length ==> paragraphs[i] == ConvertLine(old(paragraphs[i]))
    ensures forall i :: 0 <= i < cells.Length ==> cells[i] == ConvertLine(old(cells[i]))
  {
    ConvertAll(paragraphs, ConvertLine);
    ConvertAll(cells, ConvertLine);
  }

  /** The name the converted document is saved under. */
  function OutputName(baseName: string): (r: string)
    ensures StartsWith(r, "output") && EndsWith(r, baseName)
  {
    var r := "output_" + baseName;
    assert r[|r| - |baseName|..] == baseName;
    r
  }

  /** Step 1 picks `.doc` files, in any letter case, that are not outputs. */
  predicate SelectedForDocConversion(fileName: string) {
    EndsWith(ToLower(fileName), ".doc") && !StartsWith(fileName, "output")
  }

  /** Step 2 picks `.docx` files, lower case only, that are not outputs. */
  predicate SelectedForProcessing(fileName: string) {
    EndsWith(fileName, ".docx") && !StartsWith(fileName, "output")
  }

  /** A saved output is never picked up again by either step, and no file is
    * picked by both steps. */
  lemma SelectionProperties(baseName: string, fileName: string)
    ensures !SelectedForProcessing(OutputName(baseName)) && !SelectedForDocConversion(OutputName(baseName))
    ensures !(SelectedForDocConversion(fileName) && SelectedForProcessing(fileName))
  {
    var n := |fileName|;
    if EndsWith(fileName, ".docx") {
      assert fileName[n - 5..][4] == fileName[n - 1];
      assert ToLower(fileName)[n - 1] == LowerChar(fileName[n - 1]) == 'x';
      assert ToLower(fileName)[n - 4..][3] == ToLower(fileName)[n - 1];
    }
  }
}
