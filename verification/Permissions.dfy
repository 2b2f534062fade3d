/** Validation and normalisation of a custom role's permission list
    (backend/app/routers/admin_roles.py, _validate_permissions). */
module Permissions {

  /** The known resources and actions. */
  datatype Catalog = Catalog(resources: set<string>, actions: set<string>)

  datatype PermissionError =
    | GlobalWildcard
    | BadFormat(perm: string)
    | BadResource(resource: string, perm: string)
    | BadAction(action: string, perm: string)

  datatype Validation = Valid(perms: seq<string>) | Invalid(errors: seq<PermissionError>)

  // ---------------------------------------------------------------------------
  // What a permission may look like

  predicate NoColon(s: string) {
    ':' !in s
  }

  predicate KnownPart(part: string, known: set<string>) {
    part == "*" || part in known
  }

  /** A resource and an action, each known or a wildcard, around one colon; not both wildcards. */
  ghost predicate WellFormed(catalog: Catalog, perm: string) {
    && perm != "*:*"
    && exists r, a :: perm == Pair(r, a) && NoColon(r) && NoColon(a)
         && KnownPart(r, catalog.resources) && KnownPart(a, catalog.actions)
  }

  function Pair(resource: string, action: string): string {
    resource + ":" + action
  }

  // ---------------------------------------------------------------------------
  // The code

  /** perm.split(":"): the pieces between colons, at least one. */
  function Split(s: string): (parts: seq<string>)
    ensures parts != []
  {
    if s == "" then [""]
    else
      var rest := Split(s[1..]);
      if s[0] == ':' then [""] + rest else [[s[0]] + rest[0]] + rest[1..]
  }

  /** The error recorded for one entry, as a list of none or one. */
  function ErrorsOf(catalog: Catalog, perm: string): seq<PermissionError> {
    if perm == "*:*" then [GlobalWildcard]
    else
      var parts := Split(perm);
      if |parts| != 2 then [BadFormat(perm)]
      else if !KnownPart(parts[0], catalog.resources) then [BadResource(parts[0], perm)]
      else if !KnownPart(parts[1], catalog.actions) then [BadAction(parts[1], perm)]
      else []
  }

  function AllErrors(catalog: Catalog, perms: seq<string>): seq<PermissionError> {
    if perms == [] then [] else AllErrors(catalog, perms[..|perms| - 1]) + ErrorsOf(catalog, perms[|perms| - 1])
  }

  /** sorted(set(xs)) */
  function SortedDistinct(xs: seq<string>): seq<string> {
    if xs == [] then [] else Insert(xs[0], SortedDistinct(xs[1..]))
  }

  function Insert(x: string, sorted: seq<string>): seq<string> {
    if sorted == [] then [x]
    else if x == sorted[0] then sorted
    else if Less(x, sorted[0]) then [x] + sorted
    else [sorted[0]] + Insert(x, sorted[1..])
  }

  /** Lexicographic order by code point. */
  predicate Less(a: string, b: string) {
    b != "" && (a == "" || a[0] < b[0] || (a[0] == b[0] && Less(a[1..], b[1..])))
  }

  function Outcome(catalog: Catalog, perms: seq<string>): Validation {
    if AllErrors(catalog, perms) != [] then Invalid(AllErrors(catalog, perms)) else Valid(SortedDistinct(perms))
  }

  method ValidatePermissions(catalog: Catalog, perms: seq<string>) returns (result: Validation)
    ensures result == Outcome(catalog, perms)
    ensures result.Valid? <==> forall p :: p in perms ==> WellFormed(catalog, p)
    ensures result.Valid? ==> StrictlySorted(result.perms) && forall p :: p in result.perms <==> p in perms
  {
    hide AllErrors, WellFormed, StrictlySorted, SortedDistinct;
    var errors: seq<PermissionError>, normalized := [], [];
    NoErrorsYet(catalog, perms);
    for i := 0 to |perms|
      invariant errors == AllErrors(catalog, perms[..i])
      invariant errors == [] ==> normalized == perms[..i]
    {
      var perm := perms[i];
      AllErrorsStep(catalog, perms, i);
      if perm == "*:*" {
        errors := errors + [GlobalWildcard];
        continue;
      }
      var parts := Split(perm);
      if |parts| != 2 {
        errors := errors + [BadFormat(perm)];
        continue;
      }
      var resource, action := parts[0], parts[1];
      if resource != "*" && resource !in catalog.resources {
        errors := errors + [BadResource(resource, perm)];
        continue;
      }
      if action != "*" && action !in catalog.actions {
        errors := errors + [BadAction(action, perm)];
        continue;
      }
      normalized := normalized + [perm];
    }
    assert perms[..|perms|] == perms;
    ValidExactlyWhenWellFormed(catalog, perms);
    SortedDistinctIsSorted(perms);
    if errors != [] {
      return Invalid(errors);
    }
    return Valid(SortedDistinct(normalized));
  }

  lemma NoErrorsYet(catalog: Catalog, perms: seq<string>)
    ensures AllErrors(catalog, perms[..0]) == []
  {
  }

  lemma AllErrorsStep(catalog: Catalog, perms: seq<string>, i: nat)
    requires i < |perms|
    ensures AllErrors(catalog, perms[..i + 1]) == AllErrors(catalog, perms[..i]) + ErrorsOf(catalog, perms[i])
  {
    hide ErrorsOf;
    assert perms[..i + 1][..i] == perms[..i];
  }

  // ---------------------------------------------------------------------------
  // Splitting at the colon

  function JoinColon(parts: seq<string>): string
    requires parts != []
  {
    if |parts| == 1 then parts[0] else parts[0] + ":" + JoinColon(parts[1..])
  }

  lemma JoinEmptyFirst(rest: seq<string>)
    requires rest != []
    ensures JoinColon([""] + rest) == [':'] + JoinColon(rest)
  {
    assert ([""] + rest)[1..] == rest;
  }

  lemma JoinLongerFirst(c: char, rest: seq<string>)
    requires rest != []
    ensures JoinColon([[c] + rest[0]] + rest[1..]) == [c] + JoinColon(rest)
  {
    assert ([[c] + rest[0]] + rest[1..])[1..] == rest[1..];
    if |rest| > 1 {
      var tail := ":" + JoinColon(rest[1..]);
      assert [c] + rest[0] + tail == [c] + (rest[0] + tail);
    }
  }

  lemma NoColonParts(c: char, rest: seq<string>)
    requires rest != [] && c != ':' && forall i :: 0 <= i < |rest| ==> NoColon(rest[i])
    ensures forall i :: 0 <= i < |rest| ==> NoColon(([[c] + rest[0]] + rest[1..])[i])
  {
  }

  lemma {:induction false} SplitThenJoin(s: string)
    ensures JoinColon(Split(s)) == s
    ensures forall i :: 0 <= i < |Split(s)| ==> NoColon(Split(s)[i])
  {
    hide JoinColon;
    if s == "" {
      JoinOne("");
    } else {
      var rest := Split(s[1..]);
      SplitThenJoin(s[1..]);
      assert s == [s[0]] + s[1..];
      if s[0] == ':' {
        JoinEmptyFirst(rest);
      } else {
        JoinLongerFirst(s[0], rest);
        NoColonParts(s[0], rest);
      }
    }
  }

  lemma JoinOne(part: string)
    ensures JoinColon([part]) == part
  {
  }

  lemma {:induction false} SplitPlain(s: string)
    requires NoColon(s)
    ensures Split(s) == [s]
  {
    if s != "" {
      SplitPlain(s[1..]);
      assert s == [s[0]] + s[1..];
    }
  }

  lemma {:induction false} SplitPair(r: string, a: string)
    requires NoColon(r) && NoColon(a)
    ensures Split(Pair(r, a)) == [r, a]
  {
    if r == "" {
      SplitPlain(a);
      assert Pair(r, a)[1..] == a;
    } else {
      SplitPair(r[1..], a);
      assert r == [r[0]] + r[1..];
      assert Pair(r, a)[1..] == Pair(r[1..], a);
    }
  }

  /** A string splits in two exactly when it is two colon-free parts around one colon. */
  lemma {:induction false} SplitInTwo(s: string, r: string, a: string)
    ensures Split(s) == [r, a] <==> (s == Pair(r, a) && NoColon(r) && NoColon(a))
  {
    if Split(s) == [r, a] {
      SplitThenJoin(s);
      assert JoinColon([r, a]) == r + ":" + JoinColon([a]);
      assert Split(s)[0] == r && Split(s)[1] == a;
    }
    if s == Pair(r, a) && NoColon(r) && NoColon(a) {
      SplitPair(r, a);
    }
  }

  lemma {:induction false} NoErrorExactlyWhenWellFormed(catalog: Catalog, perm: string)
    ensures ErrorsOf(catalog, perm) == [] <==> WellFormed(catalog, perm)
  {
    var parts := Split(perm);
    if ErrorsOf(catalog, perm) == [] {
      assert parts == [parts[0], parts[1]];
      SplitInTwo(perm, parts[0], parts[1]);
    }
    if WellFormed(catalog, perm) {
      var r, a :| perm == Pair(r, a) && NoColon(r) && NoColon(a)
        && KnownPart(r, catalog.resources) && KnownPart(a, catalog.actions);
      SplitInTwo(perm, r, a);
    }
  }

  /** Validation succeeds if and only if every entry is well formed. */
  lemma {:induction false} ValidExactlyWhenWellFormed(catalog: Catalog, perms: seq<string>)
    ensures AllErrors(catalog, perms) == [] <==> forall p :: p in perms ==> WellFormed(catalog, p)
    decreases |perms|
  {
    if perms != [] {
      var init, last := perms[..|perms| - 1], perms[|perms| - 1];
      ValidExactlyWhenWellFormed(catalog, init);
      NoErrorExactlyWhenWellFormed(catalog, last);
      assert perms == init + [last];
    }
  }

  /** The only colon of the string stands at i. */
  predicate OnlyColon(s: string, i: nat) {
    i < |s| && s[i] == ':' && ':' !in s[..i] && ':' !in s[i + 1..]
  }

  /** Which error an entry gets: the global wildcard, no single colon, an unknown resource before
      it, or an unknown action after it, looked for in this order. */
  lemma {:induction false} ErrorIs(catalog: Catalog, perm: string)
    ensures perm == "*:*" ==> ErrorsOf(catalog, perm) == [GlobalWildcard]
    ensures (forall i: nat :: !OnlyColon(perm, i)) ==> ErrorsOf(catalog, perm) == [BadFormat(perm)]
    ensures forall i: nat :: perm != "*:*" && OnlyColon(perm, i) ==>
              var resource, action := perm[..i], perm[i + 1..];
              ErrorsOf(catalog, perm) ==
              if resource != "*" && resource !in catalog.resources then [BadResource(resource, perm)]
              else if action != "*" && action !in catalog.actions then [BadAction(action, perm)]
              else []
  {
    if forall i: nat :: !OnlyColon(perm, i) {
      NoColonNoPair(perm);
    }
    forall i: nat | OnlyColon(perm, i) ensures Split(perm) == [perm[..i], perm[i + 1..]] {
      assert perm == Pair(perm[..i], perm[i + 1..]);
      SplitInTwo(perm, perm[..i], perm[i + 1..]);
    }
  }

  lemma TwoPartsOneColon(perm: string)
    requires |Split(perm)| == 2
    ensures OnlyColon(perm, |Split(perm)[0]|)
  {
    var parts := Split(perm);
    assert parts == [parts[0], parts[1]];
    SplitInTwo(perm, parts[0], parts[1]);
    assert perm[..|parts[0]|] == parts[0] && perm[|parts[0]| + 1..] == parts[1];
  }

  lemma NoColonNoPair(perm: string)
    requires forall i: nat :: !OnlyColon(perm, i)
    ensures |Split(perm)| != 2 && perm != "*:*"
  {
    if |Split(perm)| == 2 {
      TwoPartsOneColon(perm);
    }
    if perm == "*:*" {
      WildcardsOneColon();
    }
  }

  lemma WildcardsOneColon()
    ensures OnlyColon("*:*", 1)
  {
    assert "*:*"[..1] == "*" && "*:*"[2..] == "*";
  }

  /** The errors are those of the entries that are not well formed, one each and in request order;
      `at` holds their positions. */
  lemma {:induction false} ErrorsInOrder(catalog: Catalog, perms: seq<string>) returns (at: seq<nat>)
    ensures |at| == |AllErrors(catalog, perms)|
    ensures forall j :: 0 <= j < |at| ==> at[j] < |perms| && ErrorsOf(catalog, perms[at[j]]) == [AllErrors(catalog, perms)[j]]
    ensures forall i, j :: 0 <= i < j < |at| ==> at[i] < at[j]
    ensures forall i :: 0 <= i < |perms| ==> (i in at <==> !WellFormed(catalog, perms[i]))
    decreases |perms|
  {
    hide WellFormed, ErrorsOf;
    if perms == [] {
      at := [];
    } else {
      var init, last := perms[..|perms| - 1], perms[|perms| - 1];
      at := ErrorsInOrder(catalog, init);
      NoErrorExactlyWhenWellFormed(catalog, last);
      OneErrorAtMost(catalog, last);
      if ErrorsOf(catalog, last) != [] {
        at := at + [|init|];
      }
    }
  }

  lemma OneErrorAtMost(catalog: Catalog, perm: string)
    ensures |ErrorsOf(catalog, perm)| <= 1
  {
  }

  // ---------------------------------------------------------------------------
  // The normal form

  ghost predicate StrictlySorted(s: seq<string>) {
    forall i, j :: 0 <= i < j < |s| ==> Less(s[i], s[j])
  }

  /** The order is that of the first characters that differ, and a proper prefix comes first. */
  predicate FirstDifference(a: string, b: string, k: nat) {
    k <= |a| && k < |b| && a[..k] == b[..k] && (k < |a| ==> a[k] < b[k])
  }

  lemma SameHead(a: string, b: string, k: nat)
    requires FirstDifference(a, b, k)
    ensures k == 0 || (a != "" && b != "" && a[0] == b[0])
  {
    assert k == 0 || (a[..k][0] == a[0] && b[..k][0] == b[0]);
  }

  lemma {:induction false} LessIsLexicographic(a: string, b: string)
    ensures Less(a, b) <==> exists k: nat :: FirstDifference(a, b, k)
  {
    if a != "" && b != "" && a[0] == b[0] {
      LessIsLexicographic(a[1..], b[1..]);
      if k: nat :| FirstDifference(a[1..], b[1..], k) {
        assert a[..k + 1] == [a[0]] + a[1..][..k] && b[..k + 1] == [b[0]] + b[1..][..k];
        assert FirstDifference(a, b, k + 1);
      }
      if k: nat :| FirstDifference(a, b, k) {
        assert k > 0;
        assert a[1..][..k - 1] == a[..k][1..] && b[1..][..k - 1] == b[..k][1..];
        assert FirstDifference(a[1..], b[1..], k - 1);
      }
    } else {
      if Less(a, b) {
        assert FirstDifference(a, b, 0);
      }
      if k: nat :| FirstDifference(a, b, k) {
        SameHead(a, b, k);
      }
    }
  }

  lemma LessIrreflexive(a: string)
    ensures !Less(a, a)
  {
  }

  lemma {:induction false} LessTransitive(a: string, b: string, c: string)
    requires Less(a, b) && Less(b, c)
    ensures Less(a, c)
  {
    if a != "" && a[0] == b[0] == c[0] {
      LessTransitive(a[1..], b[1..], c[1..]);
    }
  }

  lemma {:induction false} LessTotal(a: string, b: string)
    ensures a == b || Less(a, b) || Less(b, a)
  {
    if a != "" && b != "" && a[0] == b[0] {
      LessTotal(a[1..], b[1..]);
      assert a == [a[0]] + a[1..] && b == [b[0]] + b[1..];
    }
  }

  lemma {:induction false} InsertIsSorted(x: string, sorted: seq<string>)
    requires StrictlySorted(sorted)
    ensures StrictlySorted(Insert(x, sorted))
    ensures forall p :: p in Insert(x, sorted) <==> p == x || p in sorted
  {
    if sorted != [] && x != sorted[0] {
      var head, tail := sorted[0], sorted[1..];
      assert sorted == [head] + tail;
      if Less(x, head) {
        forall j | 0 <= j < |sorted| ensures Less(x, sorted[j]) {
          if j > 0 {
            LessTransitive(x, head, sorted[j]);
          }
        }
      } else {
        LessTotal(x, head);
        InsertIsSorted(x, tail);
        var rest := Insert(x, tail);
        forall j | 0 <= j < |rest| ensures Less(head, rest[j]) {
          assert rest[j] in rest;
          if rest[j] != x {
            var k :| 0 <= k < |tail| && tail[k] == rest[j];
            assert Less(sorted[0], sorted[k + 1]);
          }
        }
      }
    }
  }

  lemma {:induction false} SortedDistinctIsSorted(xs: seq<string>)
    ensures StrictlySorted(SortedDistinct(xs))
    ensures forall p :: p in SortedDistinct(xs) <==> p in xs
  {
    if xs != [] {
      SortedDistinctIsSorted(xs[1..]);
      InsertIsSorted(xs[0], SortedDistinct(xs[1..]));
      assert xs == [xs[0]] + xs[1..];
    }
  }

  /** A set of strings has one strictly sorted listing. */
  lemma {:induction false} SortedListingIsUnique(a: seq<string>, b: seq<string>)
    requires StrictlySorted(a) && StrictlySorted(b)
    requires forall p :: p in a <==> p in b
    ensures a == b
  {
    assert b != [] ==> b[0] in a;
    if a != [] {
      assert a[0] in a && a[0] in b;
      assert b[0] in b && b[0] in a;
      var i :| 0 <= i < |b| && b[i] == a[0];
      var j :| 0 <= j < |a| && a[j] == b[0];
      if a[0] != b[0] {
        LessTransitive(a[0], b[0], a[0]);
        LessIrreflexive(a[0]);
      }
      HeadOnlyOnce(a);
      HeadOnlyOnce(b);
      SortedListingIsUnique(a[1..], b[1..]);
      assert a == [a[0]] + a[1..] && b == [b[0]] + b[1..];
    }
  }

  lemma HeadOnlyOnce(a: seq<string>)
    requires StrictlySorted(a) && a != []
    ensures StrictlySorted(a[1..])
    ensures forall p :: p in a[1..] <==> p in a && p != a[0]
  {
    LessIrreflexive(a[0]);
    assert a == [a[0]] + a[1..];
    forall k | 0 <= k < |a[1..]| ensures a[1..][k] != a[0] {
      assert Less(a[0], a[k + 1]);
    }
  }

  /** Order and repetition of the request do not matter: the outcome's success and its
      permission list depend only on the set of entries. */
  lemma {:induction false} OutcomeDependsOnTheSet(catalog: Catalog, xs: seq<string>, ys: seq<string>)
    requires forall p :: p in xs <==> p in ys
    ensures Outcome(catalog, xs).Valid? == Outcome(catalog, ys).Valid?
    ensures Outcome(catalog, xs).Valid? ==> Outcome(catalog, xs) == Outcome(catalog, ys)
  {
    ValidExactlyWhenWellFormed(catalog, xs);
    ValidExactlyWhenWellFormed(catalog, ys);
    SortedDistinctIsSorted(xs);
    SortedDistinctIsSorted(ys);
    SortedListingIsUnique(SortedDistinct(xs), SortedDistinct(ys));
  }

  /** The list stored for a role validates again to itself. */
  lemma {:induction false} NormalFormIsFixed(catalog: Catalog, perms: seq<string>)
    requires Outcome(catalog, perms).Valid?
    ensures Outcome(catalog, Outcome(catalog, perms).perms) == Outcome(catalog, perms)
  {
    var normal := SortedDistinct(perms);
    SortedDistinctIsSorted(perms);
    OutcomeDependsOnTheSet(catalog, perms, normal);
  }

  /** What every stored custom permission list satisfies. */
  ghost predicate IsNormal(catalog: Catalog, perms: seq<string>) {
    StrictlySorted(perms) && forall p :: p in perms ==> WellFormed(catalog, p)
  }

  lemma ValidIsNormal(catalog: Catalog, perms: seq<string>)
    requires Outcome(catalog, perms).Valid?
    ensures IsNormal(catalog, Outcome(catalog, perms).perms)
  {
    ValidExactlyWhenWellFormed(catalog, perms);
    SortedDistinctIsSorted(perms);
  }
}
