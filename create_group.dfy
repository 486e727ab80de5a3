/**
 * The group-creation wizard of src/components/modals/CreateGroupModal.tsx: the id slug
 * built from a group name, the name and per-step validators, the three-step navigation,
 * the numeric input clamps, and the create request sent to the contract on submit.
 */
module CreateGroupModal {
  import opened Wrappers
  import opened Text
  import opened Seqs
  import opened Arith
  import opened Types

  // ---------------------------------------------------------------------------
  // sanitizeGroupId
  // ---------------------------------------------------------------------------

  predicate IsHyphen(c: char) { c == '-' }

  /** The class `[a-z0-9\s-]` that survives the first `replace`. */
  predicate IsKeptChar(c: char) { IsLowerAlnum(c) || IsWhitespace(c) || IsHyphen(c) }

  /** The characters a group id may contain: `[a-z0-9-]`. */
  predicate IsSlugChar(c: char) { IsLowerAlnum(c) || IsHyphen(c) }

  /** The two character classes whose runs are replaced: `\s` and `-`. */
  datatype RunClass = Spaces | Hyphens {
    predicate Has(c: char) {
      match this
      case Spaces => IsWhitespace(c)
      case Hyphens => IsHyphen(c)
    }
  }

  /** The suffix of `s` left once its leading run of class characters is skipped. */
  function DropRun(s: string, run: RunClass): (r: string)
    ensures |r| <= |s| && r == s[|s| - |r|..]
    ensures forall i :: 0 <= i < |s| - |r| ==> run.Has(s[i])
    ensures r != [] ==> !run.Has(r[0])
  {
    if s != [] && run.Has(s[0]) then DropRun(s[1..], run) else s
  }

  /**
   * `s.replace(/\s+/g, '-')` or `s.replace(/-+/g, '-')`: every maximal run of characters of
   * the class becomes a single hyphen; everything else is copied.
   */
  function ReplaceRuns(s: string, run: RunClass): (r: string)
    ensures s != [] ==> r != [] && r[0] == (if run.Has(s[0]) then '-' else s[0])
    ensures forall i :: 0 <= i < |r| ==> r[i] == '-' || !run.Has(r[i])
    ensures forall i :: 0 <= i < |r| - 1 ==> !(run.Has(r[i]) && run.Has(r[i + 1]))
    decreases |s|
  {
    if s == [] then []
    else if run.Has(s[0]) then "-" + ReplaceRuns(DropRun(s[1..], run), run)
    else [s[0]] + ReplaceRuns(s[1..], run)
  }

  /** Apart from the hyphens it inserts, the result only holds characters of the input. */
  lemma {:induction false} ReplaceRunsKeeps(s: string, run: RunClass)
    ensures forall c :: c in ReplaceRuns(s, run) ==> c == '-' || c in s
    decreases |s|
  {
    if s != [] {
      if run.Has(s[0]) {
        var rest := DropRun(s[1..], run);
        ReplaceRunsKeeps(rest, run);
        assert forall c :: c in rest ==> c in s by {
          assert rest == s[|s| - |rest|..];
        }
      } else {
        ReplaceRunsKeeps(s[1..], run);
      }
    }
  }

  /** Every class character of `s` is a hyphen, and no two class characters are adjacent. */
  predicate RunsReplaced(s: string, run: RunClass) {
    (forall i :: 0 <= i < |s| && run.Has(s[i]) ==> s[i] == '-')
    && (forall i :: 0 <= i < |s| - 1 ==> !(run.Has(s[i]) && run.Has(s[i + 1])))
  }

  lemma RunsReplacedTail(s: string, run: RunClass)
    requires s != [] && RunsReplaced(s, run)
    ensures RunsReplaced(s[1..], run)
    ensures run.Has(s[0]) ==> s[0] == '-' && DropRun(s[1..], run) == s[1..]
  {
    var t := s[1..];
    forall i | 0 <= i < |t| - 1
      ensures !(run.Has(t[i]) && run.Has(t[i + 1]))
    {
      assert t[i] == s[i + 1] && t[i + 1] == s[i + 2];
    }
    forall i | 0 <= i < |t| && run.Has(t[i])
      ensures t[i] == '-'
    {
      assert t[i] == s[i + 1];
    }
    if run.Has(s[0]) && t != [] {
      assert s[1] == t[0];
    }
  }

  /** The characters run replacement never touches: those outside the class, other than `-`. */
  function Untouched(run: RunClass): char -> bool {
    c => !run.Has(c) && c != '-'
  }

  /** Skipping a run loses no untouched character. */
  lemma {:induction false} DropRunUntouched(s: string, run: RunClass)
    ensures Filter(DropRun(s, run), Untouched(run)) == Filter(s, Untouched(run))
    decreases |s|
  {
    if s != [] && run.Has(s[0]) {
      DropRunUntouched(s[1..], run);
    }
  }

  /** Run replacement keeps every untouched character, in order, and adds none. */
  lemma {:induction false} ReplaceRunsUntouched(s: string, run: RunClass)
    ensures Filter(ReplaceRuns(s, run), Untouched(run)) == Filter(s, Untouched(run))
    decreases |s|
  {
    if s != [] {
      if run.Has(s[0]) {
        var rest := DropRun(s[1..], run);
        ReplaceRunsUntouched(rest, run);
        DropRunUntouched(s[1..], run);
        var r := "-" + ReplaceRuns(rest, run);
        assert r[0] == '-' && r[1..] == ReplaceRuns(rest, run);
      } else {
        ReplaceRunsUntouched(s[1..], run);
        var r := [s[0]] + ReplaceRuns(s[1..], run);
        assert r[0] == s[0] && r[1..] == ReplaceRuns(s[1..], run);
      }
    }
  }

  /** Skipping a leading run of `x + y` stays inside `x` when `x` ends outside the class. */
  lemma {:induction false} DropRunAppend(x: string, y: string, run: RunClass)
    requires x != [] && !run.Has(x[|x| - 1])
    ensures DropRun(x + y, run) == DropRun(x, run) + y
    decreases |x|
  {
    var xy := x + y;
    if run.Has(x[0]) {
      var tail := x[1..];
      assert DropRun(xy, run) == DropRun(tail + y, run) by {
        assert xy[0] == x[0] && xy[1..] == tail + y;
      }
      assert tail != [] && !run.Has(tail[|tail| - 1]) by {
        assert tail[|tail| - 1] == x[|x| - 1];
      }
      DropRunAppend(tail, y, run);
    } else {
      assert DropRun(xy, run) == xy by {
        assert xy[0] == x[0];
      }
    }
  }

  /** Skipping a run that covers all of `w` lands on `y` when `y` starts outside the class. */
  lemma {:induction false} DropRunWhole(w: string, y: string, run: RunClass)
    requires forall i :: 0 <= i < |w| ==> run.Has(w[i])
    requires y == [] || !run.Has(y[0])
    ensures DropRun(w + y, run) == y
    decreases |w|
  {
    if w == [] {
      assert w + y == y;
    } else {
      assert (w + y)[0] == w[0] && (w + y)[1..] == w[1..] + y;
      DropRunWhole(w[1..], y, run);
    }
  }

  /** Replacing runs in `x + y` when `x` starts with a class character and ends outside the class. */
  lemma RunHeadStep(x: string, y: string, run: RunClass)
    requires x != [] && run.Has(x[0]) && !run.Has(x[|x| - 1])
    ensures var rest := DropRun(x[1..], run);
      && rest != [] && rest[|rest| - 1] == x[|x| - 1] && |rest| < |x|
      && ReplaceRuns(x, run) == "-" + ReplaceRuns(rest, run)
      && ReplaceRuns(x + y, run) == "-" + ReplaceRuns(rest + y, run)
  {
    var tail := x[1..];
    assert (x + y)[0] == x[0] && (x + y)[1..] == tail + y;
    assert tail != [] && tail[|tail| - 1] == x[|x| - 1];
    DropRunAppend(tail, y, run);
  }

  /** Replacing runs in `x + y` when `x` starts outside the class. */
  lemma PlainHeadStep(x: string, y: string, run: RunClass)
    requires x != [] && !run.Has(x[0])
    ensures ReplaceRuns(x + y, run) == [x[0]] + ReplaceRuns(x[1..] + y, run)
  {
    assert (x + y)[0] == x[0] && (x + y)[1..] == x[1..] + y;
  }

  /** Re-associates a prefix in front of a hyphen-joined pair. */
  lemma Regroup(h: string, r1: string, r2: string)
    ensures h + (r1 + "-" + r2) == h + r1 + "-" + r2
  {
  }

  /** A run of class characters at the very start becomes one `-`. */
  lemma JoinAtStart(wy: string, w: string, y: string, run: RunClass)
    requires wy == w + y
    requires w != [] && forall i :: 0 <= i < |w| ==> run.Has(w[i])
    requires y == [] || !run.Has(y[0])
    ensures ReplaceRuns(wy, run) == "-" + ReplaceRuns(y, run)
  {
    assert wy[0] == w[0] && wy[1..] == w[1..] + y;
    DropRunWhole(w[1..], y, run);
  }

  /**
   * A maximal run becomes exactly one hyphen: when `w` is a non-empty run of class characters
   * and `y` is empty or starts outside the class, `x + w + y` is replaced as `x`, one `-`,
   * then `y`, for any `x` that is empty or ends outside the class.
   */
  lemma {:induction false} ReplaceRunsJoin(x: string, wy: string, w: string, y: string, run: RunClass)
    requires wy == w + y
    requires w != [] && forall i :: 0 <= i < |w| ==> run.Has(w[i])
    requires x == [] || !run.Has(x[|x| - 1])
    requires y == [] || !run.Has(y[0])
    ensures ReplaceRuns(x + wy, run) == ReplaceRuns(x, run) + "-" + ReplaceRuns(y, run)
    decreases |x|, 1
  {
    if x == [] {
      JoinAtStart(wy, w, y, run);
      assert x + wy == wy;
      assert ReplaceRuns(x, run) == [];
    } else if run.Has(x[0]) {
      JoinAfterRun(x, wy, w, y, run);
    } else {
      JoinAfterPlain(x, wy, w, y, run);
    }
  }

  lemma {:induction false} JoinAfterRun(x: string, wy: string, w: string, y: string, run: RunClass)
    requires wy == w + y
    requires w != [] && forall i :: 0 <= i < |w| ==> run.Has(w[i])
    requires x != [] && run.Has(x[0]) && !run.Has(x[|x| - 1])
    requires y == [] || !run.Has(y[0])
    ensures ReplaceRuns(x + wy, run) == ReplaceRuns(x, run) + "-" + ReplaceRuns(y, run)
    decreases |x|, 0
  {
    var rest := DropRun(x[1..], run);
    RunHeadStep(x, wy, run);
    ReplaceRunsJoin(rest, wy, w, y, run);
    Regroup("-", ReplaceRuns(rest, run), ReplaceRuns(y, run));
  }

  lemma {:induction false} JoinAfterPlain(x: string, wy: string, w: string, y: string, run: RunClass)
    requires wy == w + y
    requires w != [] && forall i :: 0 <= i < |w| ==> run.Has(w[i])
    requires x != [] && !run.Has(x[0]) && !run.Has(x[|x| - 1])
    requires y == [] || !run.Has(y[0])
    ensures ReplaceRuns(x + wy, run) == ReplaceRuns(x, run) + "-" + ReplaceRuns(y, run)
    decreases |x|, 0
  {
    var tail := x[1..];
    var r1, r2 := ReplaceRuns(tail, run), ReplaceRuns(y, run);
    assert ReplaceRuns(x + wy, run) == [x[0]] + ReplaceRuns(tail + wy, run) by {
      PlainHeadStep(x, wy, run);
    }
    assert ReplaceRuns(x, run) == [x[0]] + r1;
    assert ReplaceRuns(tail + wy, run) == r1 + "-" + r2 by {
      assert tail == [] || tail[|tail| - 1] == x[|x| - 1];
      ReplaceRunsJoin(tail, wy, w, y, run);
    }
    Regroup([x[0]], r1, r2);
  }

  /** A string whose class characters are lone hyphens already has its runs replaced. */
  lemma {:induction false} ReplaceRunsIdentity(s: string, run: RunClass)
    requires RunsReplaced(s, run)
    ensures ReplaceRuns(s, run) == s
    decreases |s|
  {
    if s != [] {
      RunsReplacedTail(s, run);
      ReplaceRunsIdentity(s[1..], run);
      if run.Has(s[0]) {
        assert s == "-" + s[1..];
      } else {
        assert s == [s[0]] + s[1..];
      }
    }
  }

  /** The maximum length of a sanitized name. */
  const SlugLimit := 40

  /**
   * `sanitizeGroupId`: trim, lower-case, drop characters outside `[a-z0-9\s-]`, turn
   * whitespace runs and then hyphen runs into single hyphens, keep the first 40 characters.
   */
  function Sanitize(name: string): (r: string)
    ensures |r| <= SlugLimit
    ensures forall i :: 0 <= i < |r| ==> IsSlugChar(r[i])
    ensures forall i :: 0 <= i < |r| - 1 ==> !(r[i] == '-' && r[i + 1] == '-')
  {
    var kept := Filter(Lower(Trim(name)), IsKeptChar);
    var spaced := ReplaceRuns(kept, Spaces);
    ReplaceRunsKeeps(kept, Spaces);
    assert forall i :: 0 <= i < |spaced| ==> IsSlugChar(spaced[i]) by {
      forall i | 0 <= i < |spaced| ensures IsSlugChar(spaced[i]) {
        assert spaced[i] in spaced;
      }
    }
    var collapsed := ReplaceRuns(spaced, Hyphens);
    ReplaceRunsKeeps(spaced, Hyphens);
    assert forall i :: 0 <= i < |collapsed| ==> IsSlugChar(collapsed[i]) by {
      forall i | 0 <= i < |collapsed| ensures IsSlugChar(collapsed[i]) {
        assert collapsed[i] in collapsed;
      }
    }
    SliceTo(collapsed, SlugLimit)
  }

  /**
   * The id is built from the name's letters and digits: lower-cased and in order, it holds
   * a prefix of them, and all of them unless the 40-character cut applied.
   */
  lemma SanitizeKeepsAlnum(name: string)
    ensures Filter(Sanitize(name), IsLowerAlnum) <= Filter(Lower(Trim(name)), IsLowerAlnum)
    ensures |Sanitize(name)| < SlugLimit ==>
      Filter(Sanitize(name), IsLowerAlnum) == Filter(Lower(Trim(name)), IsLowerAlnum)
  {
    var lowered := Lower(Trim(name));
    var kept := Filter(lowered, IsKeptChar);
    var spaced := ReplaceRuns(kept, Spaces);
    var collapsed := ReplaceRuns(spaced, Hyphens);
    FilterFilter(lowered, IsKeptChar, IsLowerAlnum);
    ReplaceRunsUntouched(kept, Spaces);
    FilterFilter(spaced, Untouched(Spaces), IsLowerAlnum);
    FilterFilter(kept, Untouched(Spaces), IsLowerAlnum);
    ReplaceRunsUntouched(spaced, Hyphens);
    FilterFilter(collapsed, Untouched(Hyphens), IsLowerAlnum);
    FilterFilter(spaced, Untouched(Hyphens), IsLowerAlnum);
    assert Filter(collapsed, IsLowerAlnum) == Filter(lowered, IsLowerAlnum);
    assert Sanitize(name) == SliceTo(collapsed, SlugLimit);
    if |collapsed| <= SlugLimit {
      assert Sanitize(name) == collapsed;
    } else {
      FilterPrefix(collapsed, SlugLimit, IsLowerAlnum);
    }
  }

  /** A word: a non-empty string of letters and digits, as a lower-cased name holds them. */
  predicate IsWord(a: string) {
    a != [] && forall i :: 0 <= i < |a| ==> IsLowerAlnum(a[i])
  }

  /** A gap between words: a non-empty run of whitespace. */
  predicate IsGap(w: string) {
    w != [] && forall i :: 0 <= i < |w| ==> IsWhitespace(w[i])
  }

  /** Every character of two words and the whitespace between them survives the first three steps. */
  lemma CleanKeepsWords(a: string, w: string, b: string)
    requires IsWord(a) && IsGap(w) && IsWord(b)
    ensures Filter(Lower(Trim(a + w + b)), IsKeptChar) == a + w + b
  {
    var s := a + w + b;
    forall i | 0 <= i < |s| ensures !IsUpperLetter(s[i]) && IsKeptChar(s[i]) {
      if i < |a| {
        assert s[i] == a[i];
      } else if i < |a| + |w| {
        assert s[i] == w[i - |a|];
      } else {
        assert s[i] == b[i - |a| - |w|];
      }
    }
    assert s[0] == a[0] && s[|s| - 1] == b[|b| - 1];
    TrimKeepsInner(s);
    LowerIdentity(s);
    assert forall c :: c in s ==> IsKeptChar(c);
    FilterKeepsAll(s, IsKeptChar);
  }

  /** Two words joined by one hyphen have no hyphen run to collapse. */
  lemma HyphenatedWords(a: string, b: string)
    requires IsWord(a) && IsWord(b)
    ensures ReplaceRuns(a + "-" + b, Hyphens) == a + "-" + b
  {
    var joined := a + "-" + b;
    forall i | 0 <= i < |joined| ensures joined[i] == '-' <==> i == |a| {
      if i < |a| {
        assert joined[i] == a[i];
      } else if i > |a| {
        assert joined[i] == b[i - |a| - 1];
      }
    }
    assert RunsReplaced(joined, Hyphens);
    ReplaceRunsIdentity(joined, Hyphens);
  }

  /** A word of letters and digits has no run characters to replace. */
  lemma WordUnreplaced(a: string, run: RunClass)
    requires forall i :: 0 <= i < |a| ==> IsLowerAlnum(a[i])
    ensures ReplaceRuns(a, run) == a
  {
    assert RunsReplaced(a, run);
    ReplaceRunsIdentity(a, run);
  }

  /** A whitespace run between two words becomes one hyphen. */
  lemma SpacesBetweenWords(a: string, w: string, b: string)
    requires IsWord(a) && IsGap(w) && IsWord(b)
    ensures ReplaceRuns(a + w + b, Spaces) == a + "-" + b
  {
    assert a + w + b == a + (w + b);
    forall i | 0 <= i < |w| ensures Spaces.Has(w[i]) {
      assert IsWhitespace(w[i]);
    }
    assert IsLowerAlnum(a[|a| - 1]) && IsLowerAlnum(b[0]);
    ReplaceRunsJoin(a, w + b, w, b, Spaces);
    WordUnreplaced(a, Spaces);
    WordUnreplaced(b, Spaces);
  }

  /** `Sanitize` through its steps: what the filter, the two run replacements and the cut produce. */
  lemma SanitizeVia(name: string, kept: string, spaced: string, collapsed: string)
    requires Filter(Lower(Trim(name)), IsKeptChar) == kept
    requires ReplaceRuns(kept, Spaces) == spaced
    requires ReplaceRuns(spaced, Hyphens) == collapsed
    requires |collapsed| <= SlugLimit
    ensures Sanitize(name) == collapsed
  {
  }

  /**
   * Words of letters and digits separated by whitespace are joined by a single hyphen:
   * `Sanitize("my group") == "my-group"`, for any such pair of words that fits in the id.
   */
  lemma SanitizeJoinsWords(a: string, w: string, b: string)
    requires IsWord(a) && IsGap(w) && IsWord(b)
    requires |a| + |b| < SlugLimit
    ensures Sanitize(a + w + b) == a + "-" + b
  {
    var s := a + w + b;
    var joined := a + "-" + b;
    CleanKeepsWords(a, w, b);
    SpacesBetweenWords(a, w, b);
    HyphenatedWords(a, b);
    SanitizeVia(s, s, joined, joined);
  }

  /** Lower-casing, trimming and the character filter leave an id untouched. */
  lemma CleanFixesIds(s: string)
    requires forall i :: 0 <= i < |s| ==> IsSlugChar(s[i])
    ensures Filter(Lower(Trim(s)), IsKeptChar) == s
  {
    forall i | 0 <= i < |s| ensures !IsUpperLetter(s[i]) && !IsWhitespace(s[i]) {
      assert IsSlugChar(s[i]);
    }
    TrimIdentity(s);
    LowerIdentity(s);
    assert forall c :: c in s ==> IsKeptChar(c);
    FilterKeepsAll(s, IsKeptChar);
  }

  /** Neither run replacement changes an id. */
  lemma RunsFixIds(s: string)
    requires forall i :: 0 <= i < |s| ==> IsSlugChar(s[i])
    requires forall i :: 0 <= i < |s| - 1 ==> !(s[i] == '-' && s[i + 1] == '-')
    ensures ReplaceRuns(ReplaceRuns(s, Spaces), Hyphens) == s
  {
    forall i | 0 <= i < |s| ensures !Spaces.Has(s[i]) {
      assert IsSlugChar(s[i]);
    }
    assert RunsReplaced(s, Spaces);
    ReplaceRunsIdentity(s, Spaces);
    forall i | 0 <= i < |s| - 1 ensures !(Hyphens.Has(s[i]) && Hyphens.Has(s[i + 1])) {
      assert !(s[i] == '-' && s[i + 1] == '-');
    }
    assert RunsReplaced(s, Hyphens);
    ReplaceRunsIdentity(s, Hyphens);
  }

  /** A string already in id form (at most 40 of `[a-z0-9-]`, no `--`) is its own sanitization. */
  lemma SanitizeFixesIds(s: string)
    requires |s| <= SlugLimit
    requires forall i :: 0 <= i < |s| ==> IsSlugChar(s[i])
    requires forall i :: 0 <= i < |s| - 1 ==> !(s[i] == '-' && s[i + 1] == '-')
    ensures Sanitize(s) == s
  {
    CleanFixesIds(s);
    RunsFixIds(s);
  }

  /** Sanitizing an id again changes nothing. */
  lemma SanitizeIdempotent(name: string)
    ensures Sanitize(Sanitize(name)) == Sanitize(name)
  {
    SanitizeFixesIds(Sanitize(name));
  }

  // ---------------------------------------------------------------------------
  // isValidGroupName
  // ---------------------------------------------------------------------------

  /** One character of the class `[a-zA-Z0-9\s\-_.,'!?]`. */
  predicate IsNameChar(c: char) {
    IsLowerLetter(c) || IsUpperLetter(c) || IsDigit(c) || IsWhitespace(c)
    || c == '-' || c == '_' || c == '.' || c == ',' || c == '\'' || c == '!' || c == '?'
  }

  /** The regular expression `^[a-zA-Z0-9\s\-_.,'!?]+$`, matched one character at a time. */
  predicate MatchesNamePattern(s: string)
    decreases |s|
  {
    s != [] && IsNameChar(s[0]) && (|s| == 1 || MatchesNamePattern(s[1..]))
  }

  predicate AllNameChars(s: string) {
    forall i :: 0 <= i < |s| ==> IsNameChar(s[i])
  }

  lemma {:induction false} MatchesNamePatternIff(s: string)
    ensures MatchesNamePattern(s) <==> s != [] && AllNameChars(s)
    decreases |s|
  {
    if |s| > 1 {
      MatchesNamePatternIff(s[1..]);
      assert AllNameChars(s) <==> IsNameChar(s[0]) && AllNameChars(s[1..]) by {
        if IsNameChar(s[0]) && AllNameChars(s[1..]) {
          forall i | 0 <= i < |s| ensures IsNameChar(s[i]) {
            if i > 0 { assert s[i] == s[1..][i - 1]; }
          }
        }
      }
    }
  }

  const NameMin := 3
  const NameMax := 100
  const DescriptionMax := 256

  /** `isValidGroupName`: the pattern test and the 3..100 length bounds. */
  predicate IsValidGroupName(name: string) {
    MatchesNamePattern(name) && |name| >= NameMin && |name| <= NameMax
  }

  /** A name is valid exactly when it has 3 to 100 characters, all from the allowed class. */
  lemma ValidGroupNameIff(name: string)
    ensures IsValidGroupName(name) <==> NameMin <= |name| <= NameMax && AllNameChars(name)
  {
    MatchesNamePatternIff(name);
  }

  // ---------------------------------------------------------------------------
  // Form state and validateStep
  // ---------------------------------------------------------------------------

  /** `formData`: amounts are whole STX and the cycle is in days. */
  datatype FormData = FormData(
    name: string,
    description: string,
    mode: int,
    deposit: int,
    maxMembers: int,
    cycleDuration: int,
    isPublic: bool)

  /** The error strings the modal shows, one constructor each. */
  datatype FormError =
    NameRequired
    | NameTooShort
    | NameTooLong
    | NameInvalidChars
    | DescriptionTooLong
    | DepositNotPositive
    | DepositTooLarge
    | CycleNotPositive
    | CycleTooLong
    | TooFewMembers
    | TooManyMembers
    | SubmitFailed
  {
    predicate IsNameError() {
      NameRequired? || NameTooShort? || NameTooLong? || NameInvalidChars?
    }

    function Message(): string {
      match this
      case NameRequired => "Group name is required"
      case NameTooShort => "Group name must be at least 3 characters"
      case NameTooLong => "Group name must be less than 100 characters"
      case NameInvalidChars => "Group name contains invalid characters. Use only letters, numbers, spaces, and basic punctuation."
      case DescriptionTooLong => "Description must be less than 256 characters"
      case DepositNotPositive => "Deposit must be greater than 0"
      case DepositTooLarge => "Deposit cannot exceed 10,000 STX"
      case CycleNotPositive => "Cycle duration must be greater than 0"
      case CycleTooLong => "Cycle duration cannot exceed 365 days"
      case TooFewMembers => "Must have at least 2 members"
      case TooManyMembers => "Cannot exceed 100 members"
      case SubmitFailed => "Failed to create group. Please try again."
    }
  }

  const DepositMax := 10000
  const CycleMax := 365
  const MembersMin := 2
  const MembersMax := 100

  /** `[e]` when the check fails, nothing otherwise. */
  function Report(fails: bool, e: FormError): seq<FormError> {
    if fails then [e] else []
  }

  /** The first failing check of the trimmed name, if any. */
  function NameErrors(trimmed: string): seq<FormError> {
    if trimmed == [] then [NameRequired]
    else if |trimmed| < NameMin then [NameTooShort]
    else if |trimmed| > NameMax then [NameTooLong]
    else Report(!IsValidGroupName(trimmed), NameInvalidChars)
  }

  /** The errors `validateStep(step)` reports for a form, in the order they are pushed. */
  function StepErrors(step: int, form: FormData): seq<FormError> {
    if step == 1 then
      NameErrors(Trim(form.name))
      + Report(form.description != [] && |form.description| > DescriptionMax, DescriptionTooLong)
    else if step == 2 then
      Report(form.deposit <= 0, DepositNotPositive)
      + Report(form.deposit > DepositMax, DepositTooLarge)
      + Report(form.cycleDuration <= 0, CycleNotPositive)
      + Report(form.cycleDuration > CycleMax, CycleTooLong)
      + Report(form.maxMembers < MembersMin, TooFewMembers)
      + Report(form.maxMembers > MembersMax, TooManyMembers)
    else []
  }

  /** What a form must meet to leave step 1: a valid trimmed name and a description that fits. */
  predicate Step1Ok(name: string, description: string) {
    IsValidGroupName(Trim(name)) && |description| <= DescriptionMax
  }

  /** The bounds a form must meet to leave step 2. */
  predicate Step2Bounds(form: FormData) {
    0 < form.deposit <= DepositMax
    && 0 < form.cycleDuration <= CycleMax
    && MembersMin <= form.maxMembers <= MembersMax
  }

  /** The name checks of `validateStep(1)`, run in order until one fails. */
  method CheckName(trimmed: string) returns (errs: seq<FormError>)
    ensures errs == NameErrors(trimmed)
  {
    errs := [];
    if trimmed == [] {
      errs := errs + [NameRequired];
    } else if |trimmed| < NameMin {
      errs := errs + [NameTooShort];
    } else if |trimmed| > NameMax {
      errs := errs + [NameTooLong];
    } else if !IsValidGroupName(trimmed) {
      errs := errs + [NameInvalidChars];
    }
  }

  /**
   * The name checks report at most one error, the first failing of required, minimum
   * length, maximum length and character class.
   */
  lemma NameErrorRules(t: string)
    ensures var e := NameErrors(t);
      && |e| <= 1
      && (forall x :: x in e ==> x.IsNameError())
      && (NameRequired in e <==> t == [])
      && (NameTooShort in e <==> 0 < |t| < NameMin)
      && (NameTooLong in e <==> |t| > NameMax)
      && (NameInvalidChars in e <==> NameMin <= |t| <= NameMax && !AllNameChars(t))
  {
    ValidGroupNameIff(t);
  }

  /**
   * Step 1 reports at most one name error, the first failing of required, minimum length,
   * maximum length and character class, and independently a description error exactly
   * when the description is longer than 256 characters.
   */
  lemma Step1Errors(form: FormData)
    ensures var errs := StepErrors(1, form); var t := Trim(form.name);
      && |errs| <= 2
      && (forall i, j :: 0 <= i < j < |errs| ==> !(errs[i].IsNameError() && errs[j].IsNameError()))
      && (NameRequired in errs <==> t == [])
      && (NameTooShort in errs <==> 0 < |t| < NameMin)
      && (NameTooLong in errs <==> |t| > NameMax)
      && (NameInvalidChars in errs <==> NameMin <= |t| <= NameMax && !AllNameChars(t))
      && (DescriptionTooLong in errs <==> |form.description| > DescriptionMax)
  {
    var t := Trim(form.name);
    NameErrorRules(t);
    var names := NameErrors(t);
    var desc := Report(form.description != [] && |form.description| > DescriptionMax, DescriptionTooLong);
    assert StepErrors(1, form) == names + desc;
    assert DescriptionTooLong !in names;
    assert forall x :: x in desc ==> !x.IsNameError();
  }

  /** Step 1 passes exactly when the trimmed name is a valid group name and the description fits. */
  lemma Step1Passes(form: FormData)
    ensures StepErrors(1, form) == [] <==> Step1Ok(form.name, form.description)
  {
  }

  /** Step 2 passes exactly when deposit, cycle length and member count are within bounds. */
  lemma Step2Passes(form: FormData)
    ensures StepErrors(2, form) == [] <==> Step2Bounds(form)
    ensures DepositNotPositive in StepErrors(2, form) <==> form.deposit <= 0
    ensures TooManyMembers in StepErrors(2, form) <==> form.maxMembers > MembersMax
  {
  }

  /** Every other step number validates unconditionally. */
  lemma OtherStepsPass(step: int, form: FormData)
    requires step != 1 && step != 2
    ensures StepErrors(step, form) == []
  {
  }

  // ---------------------------------------------------------------------------
  // The submitted request
  // ---------------------------------------------------------------------------

  const MicroStxPerStx := 1000000
  const BlocksPerDay := 144
  const EnrollmentPeriodBlocks := 1008

  /** The id sent to the contract: the slug, a hyphen and the timestamp in base 36. */
  function GroupId(name: string, now: nat): (r: string)
    ensures forall i :: 0 <= i < |r| ==> IsSlugChar(r[i])
  {
    var stamp := ToRadix(now, 36);
    var slug := Sanitize(name);
    assert forall i :: 0 <= i < |stamp| ==> IsSlugChar(stamp[i]) by {
      forall i | 0 <= i < |stamp| ensures IsSlugChar(stamp[i]) {
        assert stamp[i] in stamp;
      }
    }
    SlugCharsJoin(slug, stamp);
    slug + "-" + stamp
  }

  /** Joining two strings of id characters with a hyphen gives a string of id characters. */
  lemma SlugCharsJoin(x: string, y: string)
    requires forall i :: 0 <= i < |x| ==> IsSlugChar(x[i])
    requires forall i :: 0 <= i < |y| ==> IsSlugChar(y[i])
    ensures forall i :: 0 <= i < |x + "-" + y| ==> IsSlugChar((x + "-" + y)[i])
  {
    var r := x + "-" + y;
    forall i | 0 <= i < |r| ensures IsSlugChar(r[i]) {
      if i < |x| {
        assert r[i] == x[i];
      } else if i > |x| {
        assert r[i] == y[i - |x| - 1];
      }
    }
  }

  /**
   * A timestamp below 36^k gives an id of at most 41 + k characters; with the 8 base-36
   * digits that millisecond timestamps have until 2059 that is 49, inside the contract's 50.
   */
  lemma GroupIdLength(name: string, now: nat, k: nat)
    requires 1 <= k && now < Pow36(k)
    ensures |GroupId(name, now)| <= SlugLimit + 1 + k
  {
    Base36Length(now, k);
  }

  /** The id ends with the timestamp, which reads back from it. */
  lemma GroupIdTimestamp(name: string, now: nat)
    ensures var id := GroupId(name, now);
      && StartsWith(id, Sanitize(name) + "-")
      && FromRadix(id[|Sanitize(name)| + 1..], 36) == now
  {
    var id := GroupId(name, now);
    assert id[|Sanitize(name)| + 1..] == ToRadix(now, 36);
    RadixRoundTrip(now, 36);
  }

  /** The two contract calls, with their arguments in order. */
  datatype CreateRequest =
    CreatePublicGroup(
      groupId: string, name: string, description: Option<string>,
      deposit: int, cycleBlocks: int, maxMembers: int, mode: int,
      enrollmentBlocks: int, autoStartWhenFull: bool)
    | CreatePrivateGroup(
      groupId: string, name: string, description: Option<string>,
      deposit: int, cycleBlocks: int, maxMembers: int, mode: int)

  /** `description || null`. */
  function OrNull(s: string): (r: Option<string>)
    ensures r.None? <==> s == []
    ensures r.Some? ==> r.value == s
  {
    if s == [] then None else Some(s)
  }

  /** The request `handleSubmit` sends for a form at time `now` (milliseconds). */
  function BuildRequest(form: FormData, now: nat): CreateRequest {
    var id := GroupId(form.name, now);
    var deposit := form.deposit * MicroStxPerStx;
    var cycle := form.cycleDuration * BlocksPerDay;
    if form.isPublic then
      CreatePublicGroup(id, form.name, OrNull(form.description), deposit, cycle,
        form.maxMembers, form.mode, EnrollmentPeriodBlocks, true)
    else
      CreatePrivateGroup(id, form.name, OrNull(form.description), deposit, cycle,
        form.maxMembers, form.mode)
  }

  /**
   * The request carries the form's amounts in contract units, losslessly: whole STX become
   * microSTX and days become blocks. Only a public request has an enrollment period
   * (7 days of blocks) and starts automatically when full.
   */
  lemma RequestUnits(form: FormData, now: nat)
    ensures var r := BuildRequest(form, now);
      && r.deposit % MicroStxPerStx == 0 && r.deposit / MicroStxPerStx == form.deposit
      && r.cycleBlocks % BlocksPerDay == 0 && r.cycleBlocks / BlocksPerDay == form.cycleDuration
      && (r.CreatePublicGroup? <==> form.isPublic)
      && (r.CreatePublicGroup? ==> r.enrollmentBlocks == 7 * BlocksPerDay && r.autoStartWhenFull)
      && r.name == form.name && r.maxMembers == form.maxMembers && r.mode == form.mode
      && (r.description.None? <==> form.description == [])
  {
    ScaleExact(form.deposit, MicroStxPerStx);
    ScaleExact(form.cycleDuration, BlocksPerDay);
  }

  /** The ranges every request leaving a fully validated form satisfies. */
  predicate RequestInBounds(r: CreateRequest) {
    MicroStxPerStx <= r.deposit <= DepositMax * MicroStxPerStx
    && BlocksPerDay <= r.cycleBlocks <= CycleMax * BlocksPerDay
    && MembersMin <= r.maxMembers <= MembersMax
    && (forall i :: 0 <= i < |r.groupId| ==> IsSlugChar(r.groupId[i]))
  }

  lemma BoundsCarryOver(form: FormData, now: nat)
    requires Step2Bounds(form)
    ensures RequestInBounds(BuildRequest(form, now))
  {
  }

  // ---------------------------------------------------------------------------
  // The modal's state
  // ---------------------------------------------------------------------------

  const TotalSteps := 3

  /** `parseFloat`/`parseInt` of an input field: a number, or `None` for NaN. */
  type Parsed = Option<int>

  /** The clamp range the input handlers keep each numeric field in. */
  predicate Clamped(form: FormData) {
    form.deposit >= 0
    && form.cycleDuration >= 1
    && MembersMin <= form.maxMembers <= MembersMax
    && (form.mode == 1 || form.mode == 2)
  }

  class CreateGroupWizard {
    var step: int
    var errors: seq<FormError>
    var form: FormData
    var isSubmitting: bool

    /**
     * The step stays in 1..3, the numeric fields stay clamped, and the wizard only stands
     * past a step whose fields validated (fields of earlier steps are not shown later).
     */
    ghost predicate Valid()
      reads this
    {
      1 <= step <= TotalSteps
      && Clamped(form)
      && (step >= 2 ==> Step1Ok(form.name, form.description))
      && (step == 3 ==> Step2Bounds(form))
    }

    constructor ()
      ensures Valid()
      ensures step == 1 && errors == [] && !isSubmitting
      ensures form == FormData("", "", 1, 100, 10, 30, true)
    {
      step := 1;
      errors := [];
      form := FormData("", "", 1, 100, 10, 30, true);
      isSubmitting := false;
    }

    /** The step-1 branch of `validateStep`: pushes at most one name error, then the description error. */
    method CollectStep1Errors() returns (newErrors: seq<FormError>)
      ensures newErrors == StepErrors(1, form)
    {
      newErrors := CheckName(Trim(form.name));
      var description := form.description;
      if description != [] && |description| > DescriptionMax {
        newErrors := newErrors + [DescriptionTooLong];
      }
    }

    /** The step-2 branch of `validateStep`: one push per bound that fails, in order. */
    method CollectStep2Errors() returns (newErrors: seq<FormError>)
      ensures newErrors == StepErrors(2, form)
    {
      var f := form;
      newErrors := [];
      if f.deposit <= 0 { newErrors := newErrors + [DepositNotPositive]; }
      if f.deposit > DepositMax { newErrors := newErrors + [DepositTooLarge]; }
      assert newErrors == Report(f.deposit <= 0, DepositNotPositive)
        + Report(f.deposit > DepositMax, DepositTooLarge);
      if f.cycleDuration <= 0 { newErrors := newErrors + [CycleNotPositive]; }
      if f.cycleDuration > CycleMax { newErrors := newErrors + [CycleTooLong]; }
      assert newErrors == Report(f.deposit <= 0, DepositNotPositive)
        + Report(f.deposit > DepositMax, DepositTooLarge)
        + Report(f.cycleDuration <= 0, CycleNotPositive)
        + Report(f.cycleDuration > CycleMax, CycleTooLong);
      if f.maxMembers < MembersMin { newErrors := newErrors + [TooFewMembers]; }
      if f.maxMembers > MembersMax { newErrors := newErrors + [TooManyMembers]; }
    }

    /** `validateStep`: collects the step's errors and stores them; passes when there are none. */
    method ValidateStep(currentStep: int) returns (ok: bool)
      requires Valid()
      modifies this
      ensures Valid()
      ensures errors == StepErrors(currentStep, form)
      ensures ok <==> errors == []
      ensures step == old(step) && form == old(form) && isSubmitting == old(isSubmitting)
    {
      var newErrors: seq<FormError> := [];
      if currentStep == 1 {
        newErrors := CollectStep1Errors();
      } else if currentStep == 2 {
        newErrors := CollectStep2Errors();
      }
      errors := newErrors;
      ok := |newErrors| == 0;
    }

    /** `nextStep`: advance, at most to step 3, only when the current step validates. */
    method NextStep()
      requires Valid()
      modifies this
      ensures Valid()
      ensures StepErrors(old(step), old(form)) == [] ==>
        step == (if old(step) < TotalSteps then old(step) + 1 else TotalSteps) && errors == []
      ensures StepErrors(old(step), old(form)) != [] ==>
        step == old(step) && errors == StepErrors(old(step), old(form))
      ensures form == old(form) && isSubmitting == old(isSubmitting)
    {
      var ok := ValidateStep(step);
      Step1Passes(form);
      Step2Passes(form);
      if ok {
        step := if step + 1 < TotalSteps then step + 1 else TotalSteps;
        errors := [];
      }
    }

    /** `prevStep`: go back one step, never below 1, and clear the errors. */
    method PrevStep()
      requires Valid()
      modifies this
      ensures Valid()
      ensures step == (if old(step) > 1 then old(step) - 1 else 1) && errors == []
      ensures form == old(form) && isSubmitting == old(isSubmitting)
    {
      step := if step - 1 > 1 then step - 1 else 1;
      errors := [];
    }

    /** The name field, shown on step 1. */
    method SetName(name: string)
      requires Valid() && step == 1
      modifies this
      ensures Valid()
      ensures form == old(form).(name := name)
      ensures step == old(step) && errors == old(errors) && isSubmitting == old(isSubmitting)
    {
      form := form.(name := name);
    }

    /** The description field, shown on step 1. */
    method SetDescription(description: string)
      requires Valid() && step == 1
      modifies this
      ensures Valid()
      ensures form == old(form).(description := description)
      ensures step == old(step) && errors == old(errors) && isSubmitting == old(isSubmitting)
    {
      form := form.(description := description);
    }

    /** The public/private cards, shown on step 1. */
    method SetPublic(isPublic: bool)
      requires Valid() && step == 1
      modifies this
      ensures Valid()
      ensures form == old(form).(isPublic := isPublic)
      ensures step == old(step) && errors == old(errors) && isSubmitting == old(isSubmitting)
    {
      form := form.(isPublic := isPublic);
    }

    /** The ROSCA/collective cards, shown on step 2. */
    method SetMode(mode: int)
      requires Valid() && step == 2
      requires mode == 1 || mode == 2
      modifies this
      ensures Valid()
      ensures form == old(form).(mode := mode)
      ensures step == old(step) && errors == old(errors) && isSubmitting == old(isSubmitting)
    {
      form := form.(mode := mode);
    }

    /** The deposit input: NaN becomes 0, negatives become 0. */
    method SetDeposit(parsed: Parsed)
      requires Valid() && step == 2
      modifies this
      ensures Valid()
      ensures form == old(form).(deposit := match parsed
        case None => 0
        case Some(v) => if v < 0 then 0 else v)
      ensures step == old(step) && errors == old(errors) && isSubmitting == old(isSubmitting)
    {
      var v := match parsed case None => 0 case Some(v) => if v < 0 then 0 else v;
      form := form.(deposit := v);
    }

    /** The cycle input: NaN becomes 1, anything below 1 becomes 1. */
    method SetCycleDuration(parsed: Parsed)
      requires Valid() && step == 2
      modifies this
      ensures Valid()
      ensures form == old(form).(cycleDuration := match parsed
        case None => 1
        case Some(v) => if v < 1 then 1 else v)
      ensures step == old(step) && errors == old(errors) && isSubmitting == old(isSubmitting)
    {
      var v := match parsed case None => 1 case Some(v) => if v < 1 then 1 else v;
      form := form.(cycleDuration := v);
    }

    /** The member-count input: NaN becomes 2, anything else is clamped to 2..100. */
    method SetMaxMembers(parsed: Parsed)
      requires Valid() && step == 2
      modifies this
      ensures Valid()
      ensures form == old(form).(maxMembers := match parsed
        case None => MembersMin
        case Some(v) => if v < MembersMin then MembersMin else if v > MembersMax then MembersMax else v)
      ensures step == old(step) && errors == old(errors) && isSubmitting == old(isSubmitting)
    {
      var v := match parsed
        case None => MembersMin
        case Some(v) => if v < MembersMin then MembersMin else if v > MembersMax then MembersMax else v;
      form := form.(maxMembers := v);
    }

    /**
     * `handleSubmit` up to the wallet call: re-validate the current step, mark the modal as
     * submitting and return the request to send. The button is disabled while submitting.
     */
    method Submit(now: nat) returns (request: Option<CreateRequest>)
      requires Valid()
      modifies this
      ensures Valid()
      ensures old(isSubmitting) ==> request.None? && errors == old(errors) && isSubmitting
      ensures !old(isSubmitting) ==> errors == StepErrors(old(step), old(form))
      ensures !old(isSubmitting) ==>
        (request.Some? <==> errors == []) && (isSubmitting <==> request.Some?)
      ensures request.Some? ==> request.value == BuildRequest(form, now)
      ensures request.Some? && old(step) == TotalSteps ==> RequestInBounds(request.value)
      ensures step == old(step) && form == old(form)
    {
      if isSubmitting {
        return None;
      }
      var ok := ValidateStep(step);
      if !ok {
        return None;
      }
      isSubmitting := true;
      if step == TotalSteps {
        BoundsCarryOver(form, now);
      }
      request := Some(BuildRequest(form, now));
    }

    /**
     * The wallet's answer: every outcome ends the submitting state; a thrown error also
     * shows the failure message. Returns whether the modal reports success and closes.
     */
    method SettleSubmit(outcome: CallOutcome) returns (closed: bool)
      requires Valid()
      modifies this
      ensures Valid()
      ensures !isSubmitting
      ensures closed <==> outcome == Finished
      ensures errors == (if outcome == Threw then [SubmitFailed] else old(errors))
      ensures step == old(step) && form == old(form)
    {
      isSubmitting := false;
      if outcome == Threw {
        errors := [SubmitFailed];
      }
      closed := outcome == Finished;
    }
  }
}
