/** How many members and repositories the demo seeder gives each organisation
    (scripts/seed_demo_data.py, _power_law_member_counts and seed_repos), in exact arithmetic. */
module SeedCounts {

  const MIN_MEMBERS := 5

  function Max(a: int, b: int): int {
    if a > b then a else b
  }

  function Sum(s: seq<int>): int {
    if s == [] then 0 else s[0] + Sum(s[1..])
  }

  // ---------------------------------------------------------------------------
  // Members

  /** int(users / i ** 1.5): the greatest k with k * i^1.5 <= users, found by squaring. */
  function Share(users: nat, i: nat): (k: nat)
    requires 1 <= i
    ensures k * k * (i * i * i) <= users * users < (k + 1) * (k + 1) * (i * i * i)
  {
    ShareFrom(users, i, 0)
  }

  function ShareFrom(users: nat, i: nat, k: nat): (r: nat)
    requires 1 <= i && k * k * (i * i * i) <= users * users
    ensures r * r * (i * i * i) <= users * users < (r + 1) * (r + 1) * (i * i * i)
    decreases users - k
  {
    if (k + 1) * (k + 1) * (i * i * i) <= users * users then
      ShareBounded(users, i, k + 1);
      ShareFrom(users, i, k + 1)
    else k
  }

  lemma ShareBounded(users: nat, i: nat, k: nat)
    requires 1 <= i && k * k * (i * i * i) <= users * users
    ensures k <= users
  {
    var cube := i * i * i;
    assert i * i >= 1;
    assert cube >= 1;
    assert k * k <= k * k * cube;
    if k > users {
      MulMono(users + 1, k, users + 1);
      MulMono(users + 1, k, k);
    }
  }

  function RawCounts(orgs: nat, users: nat): (raw: seq<int>)
    ensures |raw| == orgs && forall i :: 0 <= i < orgs ==> raw[i] >= MIN_MEMBERS
  {
    seq(orgs, (i: nat) => Max(MIN_MEMBERS, Share(users, i + 1)))
  }

  /** max(5, int(c * target / total)) for each count. */
  function ScaledCounts(raw: seq<int>, target: nat, total: int): (scaled: seq<int>)
    requires raw != [] ==> total > 0
    ensures |scaled| == |raw|
    ensures forall i :: 0 <= i < |raw| ==> scaled[i] >= MIN_MEMBERS
  {
    if raw == [] then []
    else [Max(MIN_MEMBERS, raw[0] * target / total)] + ScaledCounts(raw[1..], target, total)
  }

  function MemberCounts(orgs: nat, users: nat): (counts: seq<int>)
    ensures |counts| == orgs
    ensures forall i :: 0 <= i < orgs ==> counts[i] >= MIN_MEMBERS
  {
    var raw := RawCounts(orgs, users);
    SumPositive(raw);
    ScaledCounts(raw, users * 2, Sum(raw))
  }

  lemma {:induction false} SumPositive(s: seq<int>)
    requires forall i :: 0 <= i < |s| ==> s[i] > 0
    ensures s != [] ==> Sum(s) > 0
    ensures Sum(s) >= 0
  {
    if s != [] {
      SumPositive(s[1..]);
    }
  }

  /** random.shuffle, with any choice of index at each step. */
  method Shuffle(a: array<int>)
    modifies a
    ensures multiset(a[..]) == multiset(old(a[..]))
  {
    var i := a.Length;
    while i > 1
      invariant multiset(a[..]) == multiset(old(a[..]))
    {
      i := i - 1;
      var j: int :| 0 <= j <= i;
      a[i], a[j] := a[j], a[i];
    }
  }

  method PowerLawMemberCounts(orgs: nat, users: nat) returns (counts: array<int>)
    ensures fresh(counts) && counts.Length == orgs
    ensures multiset(counts[..]) == multiset(MemberCounts(orgs, users))
    ensures exists raw, sizes ::
      && |raw| == orgs && FollowPowerLaw(raw, users) && ScaledFrom(sizes, raw, users)
      && multiset(counts[..]) == multiset(sizes)
    ensures forall i :: 0 <= i < orgs ==> counts[i] >= MIN_MEMBERS
    ensures orgs > 0 ==> 2 * users - orgs < Sum(counts[..]) <= 2 * users + 5 * orgs
  {
    hide FollowPowerLaw, ScaledFrom;
    var scaled := MemberCounts(orgs, users);
    MemberCountsFollowPowerLaw(orgs, users);
    counts := new int[orgs];
    forall i | 0 <= i < orgs {
      counts[i] := scaled[i];
    }
    assert counts[..] == scaled;
    Shuffle(counts);
    SumOfPermutation(counts[..], scaled);
    forall i | 0 <= i < orgs ensures counts[i] >= MIN_MEMBERS {
      assert counts[i] in multiset(counts[..]);
      assert counts[i] in scaled;
    }
    if orgs > 0 {
      MemberCountsSum(orgs, users);
    }
  }

  // ---------------------------------------------------------------------------
  // Rounding error of the member counts

  lemma {:induction false} SumAt(s: seq<int>, i: nat)
    requires i < |s|
    ensures Sum(s) == s[i] + Sum(s[..i] + s[i + 1..])
  {
    if i == 0 {
      assert s[..0] + s[1..] == s[1..];
    } else {
      SumAt(s[1..], i - 1);
      assert s[1..][..i - 1] + s[1..][i..] == (s[..i] + s[i + 1..])[1..];
    }
  }

  /** Reordering a list does not change its sum. */
  lemma {:induction false} SumOfPermutation(s: seq<int>, t: seq<int>)
    requires multiset(s) == multiset(t)
    ensures Sum(s) == Sum(t)
  {
    SameLength(s, t);
    if s != [] {
      var i := IndexIn(t, s[0]);
      FirstTakenOut(s, t, i);
      SumOfPermutation(s[1..], t[..i] + t[i + 1..]);
      SumAt(t, i);
    }
  }

  lemma SameLength(s: seq<int>, t: seq<int>)
    requires multiset(s) == multiset(t)
    ensures |s| == |t|
    ensures forall x :: x in s ==> x in t
  {
    assert |s| == |multiset(s)| == |multiset(t)| == |t|;
    forall x | x in s ensures x in t {
      assert x in multiset(s);
    }
  }

  lemma IndexIn(t: seq<int>, x: int) returns (i: nat)
    requires x in t
    ensures i < |t| && t[i] == x
  {
    i :| i < |t| && t[i] == x;
  }

  lemma FirstTakenOut(s: seq<int>, t: seq<int>, i: nat)
    requires multiset(s) == multiset(t) && s != [] && i < |t| && t[i] == s[0]
    ensures multiset(s[1..]) == multiset(t[..i] + t[i + 1..])
  {
    RemoveAt(t, i);
    assert s == [s[0]] + s[1..];
  }

  lemma RemoveAt(s: seq<int>, i: nat)
    requires i < |s|
    ensures multiset(s[..i] + s[i + 1..]) == multiset(s) - multiset{s[i]}
  {
    assert s == s[..i] + [s[i]] + s[i + 1..];
  }

  /** Flooring loses less than one per element; the minimum adds at most five. */
  lemma {:induction false} ScaledSum(raw: seq<int>, target: nat, total: int)
    requires total > 0
    requires forall i :: 0 <= i < |raw| ==> raw[i] >= 0
    ensures total * Sum(ScaledCounts(raw, target, total)) <= Sum(raw) * target + 5 * |raw| * total
    ensures raw != [] ==> Sum(raw) * target < total * (Sum(ScaledCounts(raw, target, total)) + |raw|)
    ensures raw == [] ==> Sum(raw) * target == 0
  {
    if raw != [] {
      var rest := raw[1..];
      ScaledSum(rest, target, total);
      var x, head, tail := raw[0] * target / total, Max(MIN_MEMBERS, raw[0] * target / total), Sum(ScaledCounts(rest, target, total));
      assert ScaledCounts(raw, target, total)[1..] == ScaledCounts(rest, target, total);
      FloorBounds(raw[0] * target, total);
      assert x <= head <= x + 5;
      ScaledStep(raw[0], Sum(rest), |rest|, target, total, x, head, tail);
    }
  }

  lemma FloorBounds(a: nat, b: int)
    requires b > 0
    ensures b * (a / b) <= a < b * (a / b) + b
    ensures a / b >= 0
  {
  }

  lemma ScaledStep(c: int, restSum: int, n: nat, target: nat, total: int, x: nat, head: int, tail: int)
    requires total > 0 && x <= head <= x + 5
    requires total * x <= c * target < total * x + total
    requires total * tail <= restSum * target + 5 * n * total
    requires restSum * target <= total * (tail + n)
    ensures total * (head + tail) <= (c + restSum) * target + 5 * (n + 1) * total
    ensures (c + restSum) * target < total * (head + tail + n + 1)
  {
    assert (c + restSum) * target == c * target + restSum * target;
    assert total * (head + tail) == total * head + total * tail;
    assert total * x <= total * head <= total * x + 5 * total by {
      MulMono(x, head, total);
      MulMono(head, x + 5, total);
    }
    assert total * (tail + n) == total * tail + total * n;
    assert 5 * (n + 1) * total == 5 * n * total + 5 * total;
    assert total * (head + tail + n + 1) == total * head + total * tail + total * n + total;
  }

  lemma MulMono(a: int, b: int, c: int)
    requires a <= b && 0 <= c
    ensures a * c <= b * c && c * a <= c * b
  {
  }

  /** The organisation sizes add up to about twice the number of users: fewer than one per
      organisation short of it and at most five per organisation above. */
  lemma {:induction false} MemberCountsSum(orgs: nat, users: nat)
    requires 1 <= orgs
    ensures 2 * users - orgs < Sum(MemberCounts(orgs, users)) <= 2 * users + 5 * orgs
  {
    var raw := RawCounts(orgs, users);
    var total, sum := Sum(raw), Sum(MemberCounts(orgs, users));
    SumPositive(raw);
    ScaledSum(raw, users * 2, total);
    MemberDivide(orgs, users, total, sum);
  }

  lemma MemberDivide(orgs: nat, users: nat, total: int, sum: int)
    requires total > 0
    requires total * sum <= total * (users * 2) + 5 * orgs * total
    requires total * (users * 2) < total * (sum + orgs)
    ensures 2 * users - orgs < sum <= 2 * users + 5 * orgs
  {
    assert total * (users * 2) + 5 * orgs * total == total * (users * 2 + 5 * orgs);
    CancelLe(total, sum, users * 2 + 5 * orgs);
    CancelLt(total, users * 2, sum + orgs);
  }

  lemma CancelLe(c: int, a: int, b: int)
    requires c > 0 && c * a <= c * b
    ensures a <= b
  {
    assert c * (b + 1) == c * b + c;
    if b < a {
      MulMono(b + 1, a, c);
    }
  }

  lemma CancelLt(c: int, a: int, b: int)
    requires c > 0 && c * a < c * b
    ensures a < b
  {
    if b <= a {
      MulMono(b, a, c);
    }
  }

  // ---------------------------------------------------------------------------
  // The shape of the distribution

  lemma CubeStep(i: nat)
    ensures i * i * i <= (i + 1) * (i + 1) * (i + 1)
  {
    MulMono(i, i + 1, i);
    MulMono(i, i + 1, i + 1);
    MulMono(i * i, (i + 1) * (i + 1), i);
    MulMono(i, i + 1, (i + 1) * (i + 1));
  }

  /** A later rank never gets a larger share. */
  lemma ShareFalls(users: nat, i: nat)
    requires 1 <= i
    ensures Share(users, i + 1) <= Share(users, i)
  {
    var k, r := Share(users, i + 1), Share(users, i);
    CubeStep(i);
    MulMono(i * i * i, (i + 1) * (i + 1) * (i + 1), k * k);
    SquareOrder(k, r + 1, i * i * i);
  }

  lemma SquareOrder(k: nat, m: nat, cube: nat)
    requires k * k * cube < m * m * cube
    ensures k < m
  {
    if m <= k {
      MulMono(m, k, m);
      MulMono(m, k, k);
      MulMono(m * m, k * k, cube);
    }
  }

  lemma {:induction false} ScaledFalls(raw: seq<int>, target: nat, total: int, i: nat)
    requires total > 0 && i + 1 < |raw| && 0 <= raw[i + 1] <= raw[i]
    ensures ScaledCounts(raw, target, total)[i + 1] <= ScaledCounts(raw, target, total)[i]
  {
    if i == 0 {
      MulMono(raw[1], raw[0], target);
      DivMono(raw[1] * target, raw[0] * target, total);
    } else {
      ScaledFalls(raw[1..], target, total, i - 1);
    }
  }

  lemma DivMono(a: nat, b: nat, c: int)
    requires a <= b && c > 0
    ensures a / c <= b / c
  {
    FloorBounds(a, c);
    FloorBounds(b, c);
    assert c * (b / c + 1) == c * (b / c) + c;
    if b / c < a / c {
      MulMono(b / c + 1, a / c, c);
    }
  }

  /** Before the shuffle the sizes never grow with the rank. */
  lemma {:induction false} CountsFallWithRank(orgs: nat, users: nat, i: nat)
    requires i + 1 < orgs
    ensures MemberCounts(orgs, users)[i + 1] <= MemberCounts(orgs, users)[i]
  {
    var raw := RawCounts(orgs, users);
    SumPositive(raw);
    ShareFalls(users, i + 1);
    ScaledFalls(raw, users * 2, Sum(raw), i);
  }

  // ---------------------------------------------------------------------------
  // Each size itself

  /** The i-th raw count, from 1, is 5 or the whole part of users / i^1.5, whichever is larger. */
  ghost predicate FollowPowerLaw(raw: seq<int>, users: nat) {
    forall i :: 0 <= i < |raw| ==> IsRankShare(raw[i], users, i + 1)
  }

  ghost predicate IsRankShare(count: int, users: nat, rank: nat) {
    exists k: nat ::
      && k * k * (rank * rank * rank) <= users * users < (k + 1) * (k + 1) * (rank * rank * rank)
      && count == if k < 5 then 5 else k
  }

  /** Each size is its raw count scaled so that the whole is twice the users, and at least 5. */
  ghost predicate ScaledFrom(sizes: seq<int>, raw: seq<int>, users: nat) {
    && |sizes| == |raw| && (raw != [] ==> Sum(raw) > 0)
    && forall i :: 0 <= i < |raw| ==>
         var scaled := raw[i] * (2 * users) / Sum(raw); sizes[i] == if scaled < 5 then 5 else scaled
  }

  lemma RawCountIs(orgs: nat, users: nat, i: nat)
    requires i < orgs
    ensures IsRankShare(RawCounts(orgs, users)[i], users, i + 1)
  {
    var k, rank := Share(users, i + 1), i + 1;
    assert k * k * (rank * rank * rank) <= users * users < (k + 1) * (k + 1) * (rank * rank * rank);
  }

  lemma {:induction false} ScaledCountIs(raw: seq<int>, target: nat, total: int, i: nat)
    requires total > 0 && i < |raw|
    ensures var scaled := raw[i] * target / total;
            ScaledCounts(raw, target, total)[i] == if scaled < 5 then 5 else scaled
  {
    if i > 0 {
      ScaledCountIs(raw[1..], target, total, i - 1);
    }
  }

  /** The sizes by rank: the power law, scaled and floored. */
  lemma {:induction false} MemberCountsFollowPowerLaw(orgs: nat, users: nat)
    ensures var raw := RawCounts(orgs, users);
            FollowPowerLaw(raw, users) && ScaledFrom(MemberCounts(orgs, users), raw, users)
  {
    hide IsRankShare, RawCounts;
    var raw := RawCounts(orgs, users);
    SumPositive(raw);
    forall i | 0 <= i < orgs ensures IsRankShare(raw[i], users, i + 1) {
      RawCountIs(orgs, users, i);
    }
    forall i | 0 <= i < orgs
      ensures var scaled := raw[i] * (2 * users) / Sum(raw);
              MemberCounts(orgs, users)[i] == if scaled < 5 then 5 else scaled
    {
      ScaledCountIs(raw, users * 2, Sum(raw), i);
    }
  }

  // ---------------------------------------------------------------------------
  // Repositories

  /** round(a / b): the nearest integer, ties to the even one. */
  function Round(a: nat, b: int): (r: nat)
    requires b > 0
    ensures 2 * a - b <= 2 * b * r <= 2 * a + b
    ensures 2 * b * r == 2 * a - b || 2 * b * r == 2 * a + b ==> r % 2 == 0
  {
    var q, rest := a / b, a % b;
    DivParts(a, b, q, rest);
    if 2 * rest < b then q
    else if 2 * rest > b then q + 1
    else if q % 2 == 0 then q else q + 1
  }

  lemma DivParts(a: nat, b: int, q: int, rest: int)
    requires b > 0 && q == a / b && rest == a % b
    ensures q >= 0 && 2 * a == 2 * b * q + 2 * rest && 0 <= rest < b
    ensures 2 * b * (q + 1) == 2 * b * q + 2 * b
  {
    assert a == b * q + rest;
  }

  function RepoCounts(repos: nat, members: seq<int>, total: int): (counts: seq<int>)
    requires members != [] ==> total > 0
    requires forall i :: 0 <= i < |members| ==> members[i] >= 0
    ensures |counts| == |members|
    ensures forall i :: 0 <= i < |counts| ==> counts[i] >= 1
  {
    if members == [] then []
    else [Max(1, Round(repos * members[0], total))] + RepoCounts(repos, members[1..], total)
  }

  lemma {:induction false} RepoSum(repos: nat, members: seq<int>, total: int)
    requires total > 0
    requires forall i :: 0 <= i < |members| ==> members[i] >= 0
    ensures var sum := Sum(RepoCounts(repos, members, total));
            && 2 * repos * Sum(members) - |members| * total <= 2 * total * sum
            && total * sum <= repos * Sum(members) + |members| * total
  {
    if members != [] {
      var rest := members[1..];
      RepoSum(repos, rest, total);
      var r := Round(repos * members[0], total);
      assert RepoCounts(repos, members, total)[1..] == RepoCounts(repos, rest, total);
      RepoStep(repos, members[0], Sum(rest), |rest|, total, r, Max(1, r), Sum(RepoCounts(repos, rest, total)));
    }
  }

  lemma RepoStep(repos: nat, m: nat, restSum: int, n: nat, total: int, r: nat, head: int, tail: int)
    requires total > 0 && head == Max(1, r)
    requires 2 * (repos * m) - total <= 2 * total * r <= 2 * (repos * m) + total
    requires 2 * repos * restSum - n * total <= 2 * total * tail
    requires total * tail <= repos * restSum + n * total
    ensures 2 * repos * (m + restSum) - (n + 1) * total <= 2 * total * (head + tail)
    ensures total * (head + tail) <= repos * (m + restSum) + (n + 1) * total
  {
    assert 2 * repos * (m + restSum) == 2 * (repos * m) + 2 * repos * restSum;
    assert repos * (m + restSum) == repos * m + repos * restSum;
    assert (n + 1) * total == n * total + total;
    assert 2 * total * (head + tail) == 2 * total * head + 2 * total * tail;
    assert total * (head + tail) == total * head + total * tail;
    MulMono(r, head, 2 * total);
    assert repos * m >= 0;
    assert total * head <= repos * m + total by {
      if r >= 1 {
        assert 2 * (total * head) == 2 * total * r;
      } else {
        assert head == 1;
      }
    }
  }

  /** Repositories are shared out by member count: the total misses the request by at most half a
      repository per organisation below and one per organisation above. */
  lemma {:induction false} RepoCountsSum(repos: nat, members: seq<int>)
    requires members != []
    requires forall i :: 0 <= i < |members| ==> members[i] >= MIN_MEMBERS
    ensures Sum(members) > 0
    ensures var sum := Sum(RepoCounts(repos, members, Sum(members)));
            2 * repos - |members| <= 2 * sum && sum <= repos + |members|
  {
    var total, n := Sum(members), |members|;
    SumPositive(members);
    var sum := Sum(RepoCounts(repos, members, total));
    RepoSum(repos, members, total);
    RepoDivide(repos, n, total, sum);
  }

  lemma RepoDivide(repos: nat, n: nat, total: int, sum: int)
    requires total > 0
    requires 2 * repos * total - n * total <= 2 * total * sum
    requires total * sum <= repos * total + n * total
    ensures 2 * repos - n <= 2 * sum && sum <= repos + n
  {
    assert total * (2 * repos - n) == 2 * repos * total - n * total;
    assert total * (2 * sum) == 2 * total * sum;
    CancelLe(total, 2 * repos - n, 2 * sum);
    assert total * (repos + n) == repos * total + n * total;
    CancelLe(total, sum, repos + n);
  }

  lemma {:induction false} RepoCountAt(repos: nat, members: seq<int>, total: int, i: nat) returns (r: nat)
    requires total > 0 && i < |members|
    requires forall k :: 0 <= k < |members| ==> members[k] >= 0
    ensures var share := repos * members[i];
            && 2 * share - total <= 2 * total * r <= 2 * share + total
            && (2 * total * r == 2 * share - total || 2 * total * r == 2 * share + total ==> r % 2 == 0)
    ensures RepoCounts(repos, members, total)[i] == if r < 1 then 1 else r
  {
    if i == 0 {
      r := Round(repos * members[0], total);
    } else {
      r := RepoCountAt(repos, members[1..], total, i - 1);
    }
  }

  /** Each organisation gets its share of the repositories by member count, rounded to the nearest
      integer with ties to the even one, and at least one. */
  lemma {:induction false} RepoCountsAreShares(repos: nat, members: seq<int>, i: nat) returns (r: nat)
    requires i < |members| && forall k :: 0 <= k < |members| ==> members[k] >= 5
    ensures Sum(members) > 0
    ensures var share, total := repos * members[i], Sum(members);
            && 2 * share - total <= 2 * total * r <= 2 * share + total
            && (2 * total * r == 2 * share - total || 2 * total * r == 2 * share + total ==> r % 2 == 0)
            && RepoCounts(repos, members, total)[i] == if r < 1 then 1 else r
  {
    SumPositive(members);
    r := RepoCountAt(repos, members, Sum(members), i);
  }
}
