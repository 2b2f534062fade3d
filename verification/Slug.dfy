/** Team slugs (backend/app/routers/admin_teams.py, _slugify): a lowered name with every
    run of other characters replaced by one hyphen and the outer hyphens stripped, proved
    equal to joining the name's alphanumeric runs with hyphens. */
module Slug {

  predicate IsAlnum(c: char) {
    'a' <= c <= 'z' || '0' <= c <= '9'
  }

  // ---------------------------------------------------------------------------
  // The code: re.sub(r"[^a-z0-9]+", "-", lowered).strip("-") or "team"

  /** How many leading characters of `s` the regular expression matches. */
  function SeparatorPrefix(s: string): (n: nat)
    ensures n <= |s|
    ensures forall i :: 0 <= i < n ==> !IsAlnum(s[i])
    ensures n < |s| ==> IsAlnum(s[n])
  {
    if s == "" || IsAlnum(s[0]) then 0 else 1 + SeparatorPrefix(s[1..])
  }

  function ReplaceSeparators(s: string): string
    decreases |s|
  {
    if s == "" then ""
    else if IsAlnum(s[0]) then [s[0]] + ReplaceSeparators(s[1..])
    else "-" + ReplaceSeparators(s[SeparatorPrefix(s)..])
  }

  function StripLeft(s: string): string {
    if s != "" && s[0] == '-' then StripLeft(s[1..]) else s
  }

  function StripRight(s: string): string {
    if s != "" && s[|s| - 1] == '-' then StripRight(s[..|s| - 1]) else s
  }

  const FALLBACK := "team"

  function SlugOfLowered(lowered: string): string {
    var slug := StripRight(StripLeft(ReplaceSeparators(lowered)));
    if slug == "" then FALLBACK else slug
  }

  /** `lower` is the case mapping of the host language; nothing is assumed of it here. */
  function Slugify(lower: string -> string, name: string): string {
    SlugOfLowered(lower(name))
  }

  // ---------------------------------------------------------------------------
  // The reference: the maximal alphanumeric runs, joined by hyphens

  function RunPrefix(s: string): (n: nat)
    ensures n <= |s|
    ensures forall i :: 0 <= i < n ==> IsAlnum(s[i])
    ensures n < |s| ==> !IsAlnum(s[n])
  {
    if s == "" || !IsAlnum(s[0]) then 0 else 1 + RunPrefix(s[1..])
  }

  function Runs(s: string): seq<string>
    decreases |s|
  {
    if s == "" then []
    else if !IsAlnum(s[0]) then Runs(s[1..])
    else [s[..RunPrefix(s)]] + Runs(s[RunPrefix(s)..])
  }

  function Join(runs: seq<string>): string {
    if runs == [] then ""
    else if |runs| == 1 then runs[0]
    else runs[0] + "-" + Join(runs[1..])
  }

  predicate IsRun(s: string) {
    s != "" && forall i :: 0 <= i < |s| ==> IsAlnum(s[i])
  }

  predicate AreRuns(runs: seq<string>) {
    forall i :: 0 <= i < |runs| ==> IsRun(runs[i])
  }

  // ---------------------------------------------------------------------------
  // Runs and Join are inverse to each other

  lemma RunsAreRuns(s: string)
    ensures AreRuns(Runs(s))
    decreases |s|
  {
    if s != "" {
      RunsAreRuns(s[if IsAlnum(s[0]) then RunPrefix(s) else 1..]);
    }
  }

  lemma RunPrefixOfRun(run: string, rest: string)
    requires forall i :: 0 <= i < |run| ==> IsAlnum(run[i])
    requires rest == "" || !IsAlnum(rest[0])
    ensures RunPrefix(run + rest) == |run|
  {
    assert rest != "" ==> (run + rest)[|run|] == rest[0];
  }

  lemma {:induction false} RunsOfRunThen(run: string, rest: string)
    requires IsRun(run)
    requires rest == "" || !IsAlnum(rest[0])
    ensures Runs(run + rest) == [run] + Runs(rest)
  {
    var s := run + rest;
    RunPrefixOfRun(run, rest);
    assert s[0] == run[0];
    assert s[..|run|] == run && s[|run|..] == rest;
  }

  lemma {:induction false} RunsOfJoin(runs: seq<string>)
    requires AreRuns(runs)
    ensures Runs(Join(runs)) == runs
  {
    if |runs| == 1 {
      assert runs[0] == runs[0] + "";
      RunsOfRunThen(runs[0], "");
    } else if runs != [] {
      var tail := Join(runs[1..]);
      RunsOfJoin(runs[1..]);
      RunsOfRunThen(runs[0], "-" + tail);
      assert runs[0] + "-" + tail == runs[0] + ("-" + tail);
      assert ("-" + tail)[1..] == tail;
      assert runs == [runs[0]] + runs[1..];
    }
  }

  // ---------------------------------------------------------------------------
  // The code computes the join

  /** What the substitution leaves: the joined runs, with at most one hyphen on either side. */
  function Padded(left: bool, runs: seq<string>, right: bool): string {
    (if left then "-" else "") + Join(runs) + (if right then "-" else "")
  }

  lemma RunsSkipSeparators(s: string, n: nat)
    requires n <= |s| && forall i :: 0 <= i < n ==> !IsAlnum(s[i])
    ensures Runs(s) == Runs(s[n..])
    decreases n
  {
    if n > 0 {
      RunsSkipSeparators(s[1..], n - 1);
      assert s[1..][n - 1..] == s[n..];
    } else {
      assert s[0..] == s;
    }
  }

  lemma ReplaceRun(run: string, rest: string)
    requires forall i :: 0 <= i < |run| ==> IsAlnum(run[i])
    ensures ReplaceSeparators(run + rest) == run + ReplaceSeparators(rest)
    decreases |run|
  {
    if run == "" {
      assert run + rest == rest;
    } else {
      var s := run + rest;
      assert s[0] == run[0] && s[1..] == run[1..] + rest;
      ReplaceRun(run[1..], rest);
      assert run == [run[0]] + run[1..];
    }
  }

  lemma PrependRun(run: string, runs: seq<string>, right: bool)
    ensures run + Padded(runs != [], runs, right) == Padded(false, [run] + runs, right)
  {
    assert ([run] + runs)[1..] == runs;
    if runs != [] {
      assert Join([run] + runs) == run + "-" + Join(runs);
    }
  }

  lemma PrependHyphen(runs: seq<string>, right: bool)
    ensures "-" + Padded(false, runs, right) == Padded(true, runs, right)
  {
  }

  lemma ReplaceLeadingRun(s: string, right: bool) returns (right': bool)
    requires s != "" && IsAlnum(s[0])
    requires var rest := s[RunPrefix(s)..];
             ReplaceSeparators(rest) == Padded(rest != "", Runs(rest), right)
             && (Runs(rest) == [] ==> !right)
    ensures ReplaceSeparators(s) == Padded(false, Runs(s), right')
  {
    var n := RunPrefix(s);
    var run, rest := s[..n], s[n..];
    assert s == run + rest;
    ReplaceRun(run, rest);
    if Runs(rest) == [] {
      right' := rest != "";
      assert Join([run]) == run;
    } else {
      right' := right;
      PrependRun(run, Runs(rest), right);
    }
  }

  lemma {:induction false} ReplaceIsPaddedJoin(s: string) returns (right: bool)
    ensures ReplaceSeparators(s) == Padded(s != "" && !IsAlnum(s[0]), Runs(s), right)
    ensures Runs(s) == [] ==> !right
    decreases |s|
  {
    if s == "" {
      right := false;
    } else if IsAlnum(s[0]) {
      right := ReplaceIsPaddedJoin(s[RunPrefix(s)..]);
      right := ReplaceLeadingRun(s, right);
    } else {
      var n := SeparatorPrefix(s);
      RunsSkipSeparators(s, n);
      right := ReplaceIsPaddedJoin(s[n..]);
      PrependHyphen(Runs(s), right);
    }
  }

  /** The ends of a non-empty join are alphanumeric, and no two hyphens meet inside it. */
  lemma {:induction false} JoinShape(runs: seq<string>)
    requires AreRuns(runs) && runs != []
    ensures var j := Join(runs);
            j != "" && IsAlnum(j[0]) && IsAlnum(j[|j| - 1])
            && (forall i :: 0 <= i < |j| ==> IsAlnum(j[i]) || j[i] == '-')
            && (forall i :: 0 <= i < |j| - 1 ==> !(j[i] == '-' && j[i + 1] == '-'))
  {
    assert IsRun(runs[0]);
    if |runs| > 1 {
      var r, j, tail := runs[0], Join(runs), Join(runs[1..]);
      assert AreRuns(runs[1..]);
      JoinShape(runs[1..]);
      assert j == r + "-" + tail;
      assert forall i :: 0 <= i < |j| ==>
          j[i] == if i < |r| then r[i] else if i == |r| then '-' else tail[i - |r| - 1];
    }
  }

  lemma {:induction false} StripPadding(left: bool, runs: seq<string>, right: bool)
    requires AreRuns(runs)
    requires runs == [] ==> !right
    ensures StripRight(StripLeft(Padded(left, runs, right))) == Join(runs)
  {
    var j := Join(runs);
    var padded := Padded(left, runs, right);
    if runs == [] {
      assert padded == if left then "-" else "";
      assert StripLeft(padded) == "";
    } else {
      JoinShape(runs);
      var tail := j + if right then "-" else "";
      assert padded == (if left then "-" else "") + tail;
      assert tail[0] == j[0];
      assert StripLeft(tail) == tail;
      assert left ==> padded[1..] == tail;
      assert StripLeft(padded) == tail;
      assert tail[..|j|] == j;
    }
  }

  /** The main result: the slug is the join of the name's runs, or the fallback when there are none. */
  lemma {:induction false} SlugIsJoinedRuns(lowered: string)
    ensures SlugOfLowered(lowered) == if Runs(lowered) == [] then FALLBACK else Join(Runs(lowered))
  {
    var right := ReplaceIsPaddedJoin(lowered);
    RunsAreRuns(lowered);
    StripPadding(lowered != "" && !IsAlnum(lowered[0]), Runs(lowered), right);
    if Runs(lowered) != [] {
      JoinShape(Runs(lowered));
    }
  }

  // ---------------------------------------------------------------------------
  // Consequences

  /** A name without runs behaves like the name "team". */
  function EffectiveRuns(lowered: string): seq<string> {
    if Runs(lowered) == [] then [FALLBACK] else Runs(lowered)
  }

  lemma FallbackIsARun()
    ensures AreRuns([FALLBACK])
  {
    assert forall i :: 0 <= i < |FALLBACK| ==> IsAlnum(FALLBACK[i]);
  }

  lemma SlugIsJoinOfEffectiveRuns(lowered: string)
    ensures SlugOfLowered(lowered) == Join(EffectiveRuns(lowered))
    ensures AreRuns(EffectiveRuns(lowered)) && EffectiveRuns(lowered) != []
  {
    SlugIsJoinedRuns(lowered);
    RunsAreRuns(lowered);
    FallbackIsARun();
  }

  lemma SlugShape(lowered: string)
    ensures var slug := SlugOfLowered(lowered);
            slug != "" && slug[0] != '-' && slug[|slug| - 1] != '-'
            && (forall i :: 0 <= i < |slug| ==> IsAlnum(slug[i]) || slug[i] == '-')
            && (forall i :: 0 <= i < |slug| ==> 'a' <= slug[i] <= 'z' || '0' <= slug[i] <= '9' || slug[i] == '-')
            && (forall i :: 0 <= i < |slug| - 1 ==> !(slug[i] == '-' && slug[i + 1] == '-'))
  {
    SlugIsJoinOfEffectiveRuns(lowered);
    JoinShape(EffectiveRuns(lowered));
  }

  /** Reading a slug back gives the runs it was made from. */
  lemma RunsOfSlug(lowered: string)
    ensures Runs(SlugOfLowered(lowered)) == EffectiveRuns(lowered)
  {
    SlugIsJoinOfEffectiveRuns(lowered);
    RunsOfJoin(EffectiveRuns(lowered));
  }

  lemma SlugCollision(a: string, b: string)
    ensures SlugOfLowered(a) == SlugOfLowered(b) <==> EffectiveRuns(a) == EffectiveRuns(b)
  {
    RunsOfSlug(a);
    RunsOfSlug(b);
    SlugIsJoinOfEffectiveRuns(a);
    SlugIsJoinOfEffectiveRuns(b);
  }

  /** Slugging a slug changes nothing, given only that lower-casing leaves [a-z0-9-] alone. */
  lemma SlugIdempotent(lower: string -> string, name: string)
    requires forall s: string | (forall i :: 0 <= i < |s| ==> IsAlnum(s[i]) || s[i] == '-') :: lower(s) == s
    ensures Slugify(lower, Slugify(lower, name)) == Slugify(lower, name)
  {
    var slug := Slugify(lower, name);
    SlugShape(lower(name));
    assert lower(slug) == slug;
    RunsOfSlug(lower(name));
    SlugIsJoinOfEffectiveRuns(lower(name));
    SlugIsJoinOfEffectiveRuns(slug);
  }

  // ---------------------------------------------------------------------------
  // In plain characters

  predicate OnlyLettersAndDigits(s: string) {
    forall i :: 0 <= i < |s| ==> 'a' <= s[i] <= 'z' || '0' <= s[i] <= '9'
  }

  predicate NoLettersOrDigits(s: string) {
    forall i :: 0 <= i < |s| ==> !('a' <= s[i] <= 'z' || '0' <= s[i] <= '9')
  }

  lemma RunsOfGap(gap: string)
    requires NoLettersOrDigits(gap)
    ensures Runs(gap) == []
  {
    RunsSkipSeparators(gap, |gap|);
    assert gap[|gap|..] == "";
  }

  lemma RunsOfName(a: string)
    requires a != "" && OnlyLettersAndDigits(a)
    ensures Runs(a) == [a]
  {
    assert a + "" == a;
    RunsOfRunThen(a, "");
  }

  /** Lower-case letters and digits are kept as they are; everything else is a gap: dropped at the
      ends, one hyphen between; and a name that is all gap becomes "team". */
  lemma {:induction false} SlugInPlainCharacters(a: string, gap: string, b: string)
    requires a != "" && OnlyLettersAndDigits(a) && b != "" && OnlyLettersAndDigits(b)
    requires gap != "" && NoLettersOrDigits(gap)
    ensures SlugOfLowered(a) == a && SlugOfLowered(gap) == "team" && SlugOfLowered("") == "team"
    ensures SlugOfLowered(a + gap) == a && SlugOfLowered(gap + b) == b
    ensures SlugOfLowered(a + gap + b) == a + "-" + b
  {
    RunsOfName(a);
    RunsOfName(b);
    RunsOfGap(gap);
    RunsOfRunThen(a, gap);
    assert a + gap + b == a + (gap + b) && (gap + b)[|gap|..] == b;
    RunsOfRunThen(a, gap + b);
    RunsSkipSeparators(gap + b, |gap|);
    SlugIsJoinedRuns(a);
    SlugIsJoinedRuns(gap);
    SlugIsJoinedRuns("");
    SlugIsJoinedRuns(a + gap);
    SlugIsJoinedRuns(gap + b);
    SlugIsJoinedRuns(a + gap + b);
    assert Join([a] + [b]) == a + "-" + b;
  }
}
