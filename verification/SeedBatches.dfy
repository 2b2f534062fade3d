/** The seeder's bulk inserts (scripts/seed_demo_data.py, seed_orgs, seed_users and seed_repos):
    generated rows reach a table in batches, through INSERT ... ON CONFLICT DO NOTHING. */
module SeedBatches {
  import opened Decimals

  /** A row and its unique key: (enterprise, organisation), (organisation, login) or
      (organisation, repository). */
  datatype Row = Row(owner: string, name: string, id: nat)

  predicate SameKey(a: Row, b: Row) {
    a.owner == b.owner && a.name == b.name
  }

  predicate HasKey(table: seq<Row>, row: Row) {
    exists i :: 0 <= i < |table| && SameKey(table[i], row)
  }

  ghost predicate DistinctKeys(rows: seq<Row>) {
    forall i, j :: 0 <= i < j < |rows| ==> !SameKey(rows[i], rows[j])
  }

  /** INSERT ... ON CONFLICT DO NOTHING, row by row. */
  function InsertAll(table: seq<Row>, rows: seq<Row>): seq<Row>
    decreases |rows|
  {
    if rows == [] then table
    else InsertAll(if HasKey(table, rows[0]) then table else table + [rows[0]], rows[1..])
  }

  function Concat(batches: seq<seq<Row>>): seq<Row> {
    if batches == [] then [] else Concat(batches[..|batches| - 1]) + batches[|batches| - 1]
  }

  ghost predicate AllFull(batches: seq<seq<Row>>, batchSize: nat) {
    forall i :: 0 <= i < |batches| ==> |batches[i]| == batchSize
  }

  /** Every batch but the last is full, and the last is not empty. */
  ghost predicate BatchSizes(batches: seq<seq<Row>>, batchSize: nat) {
    batches != [] ==>
      AllFull(batches[..|batches| - 1], batchSize) && 1 <= |batches[|batches| - 1]| <= batchSize
  }

  /** The table behind a database cursor. */
  class TableCursor {
    var rows: seq<Row>

    constructor (rows: seq<Row>)
      ensures this.rows == rows
    {
      this.rows := rows;
    }

    method Truncate()
      modifies this
      ensures rows == []
    {
      rows := [];
    }

    method ExecuteValues(batch: seq<Row>)
      modifies this
      ensures rows == InsertAll(old(rows), batch)
    {
      for i := 0 to |batch|
        invariant InsertAll(rows, batch[i..]) == InsertAll(old(rows), batch)
      {
        var row := batch[i];
        assert batch[i..][1..] == batch[i + 1..];
        if !HasKey(rows, row) {
          rows := rows + [row];
        }
      }
    }
  }

  // ---------------------------------------------------------------------------
  // Inserting distinct keys drops nothing

  lemma InsertInParts(table: seq<Row>, a: seq<Row>, b: seq<Row>)
    ensures InsertAll(InsertAll(table, a), b) == InsertAll(table, a + b)
    decreases |a|
  {
    if a == [] {
      assert a + b == b;
    } else {
      assert (a + b)[1..] == a[1..] + b;
      InsertInParts(if HasKey(table, a[0]) then table else table + [a[0]], a[1..], b);
    }
  }

  lemma {:induction false} DistinctKeysAllInserted(table: seq<Row>, rows: seq<Row>)
    requires DistinctKeys(table + rows)
    ensures InsertAll(table, rows) == table + rows
    decreases |rows|
  {
    if rows != [] {
      assert forall i :: 0 <= i < |table| ==> (table + rows)[i] == table[i];
      assert (table + rows)[|table|] == rows[0];
      assert !HasKey(table, rows[0]);
      assert table + [rows[0]] + rows[1..] == table + rows;
      DistinctKeysAllInserted(table + [rows[0]], rows[1..]);
    } else {
      assert table + rows == table;
    }
  }

  lemma ConcatOneMore(batches: seq<seq<Row>>, batch: seq<Row>)
    ensures Concat(batches + [batch]) == Concat(batches) + batch
  {
    assert (batches + [batch])[..|batches|] == batches;
  }

  // ---------------------------------------------------------------------------
  // Writing one batch after another

  /** The batches written so far make up the table. */
  ghost predicate Written(table: seq<Row>, batches: seq<seq<Row>>, done: seq<Row>, inserted: nat, batchSize: nat) {
    && Concat(batches) == done
    && table == InsertAll([], done)
    && inserted == |done|
    && BatchSizes(batches, batchSize)
  }

  method Flush(cursor: TableCursor, ghost batches: seq<seq<Row>>, ghost done: seq<Row>, batch: seq<Row>,
               inserted: nat, batchSize: nat)
    returns (inserted': nat, ghost batches': seq<seq<Row>>)
    requires Written(cursor.rows, batches, done, inserted, batchSize)
    requires 1 <= |batch| <= batchSize && AllFull(batches, batchSize)
    modifies cursor
    ensures Written(cursor.rows, batches', done + batch, inserted', batchSize)
    ensures |batch| == batchSize ==> AllFull(batches', batchSize)
  {
    assert (batches + [batch])[..|batches|] == batches;
    InsertInParts([], done, batch);
    ConcatOneMore(batches, batch);
    cursor.ExecuteValues(batch);
    inserted' := inserted + |batch|;
    batches' := batches + [batch];
  }

  lemma NothingWritten(batchSize: nat)
    ensures Written([], [], [], 0, batchSize) && AllFull([], batchSize)
  {
  }

  /** All keys distinct: nothing was dropped, and the count is the table's size. */
  lemma WrittenAll(table: seq<Row>, batches: seq<seq<Row>>, done: seq<Row>, inserted: nat, batchSize: nat)
    requires Written(table, batches, done, inserted, batchSize) && DistinctKeys(done)
    ensures table == done == Concat(batches) && inserted == |table| && BatchSizes(batches, batchSize)
  {
    assert [] + done == done;
    DistinctKeysAllInserted([], done);
  }

  lemma SliceJoins(rows: seq<Row>, lo: nat, hi: nat)
    requires lo <= hi <= |rows|
    ensures rows[..lo] + rows[lo..hi] == rows[..hi]
  {
  }

  /** for batch_start in range(0, len(rows), batch_size) */
  method WriteInSlices(cursor: TableCursor, rows: seq<Row>, batchSize: nat)
    returns (inserted: nat, ghost batches: seq<seq<Row>>)
    requires 1 <= batchSize && cursor.rows == []
    modifies cursor
    ensures Written(cursor.rows, batches, rows, inserted, batchSize)
  {
    hide Written, AllFull;
    NothingWritten(batchSize);
    inserted, batches := 0, [];
    var start, upto := 0, 0;
    while start < |rows|
      invariant upto == if start < |rows| then start else |rows|
      invariant start < |rows| ==> AllFull(batches, batchSize)
      invariant Written(cursor.rows, batches, rows[..upto], inserted, batchSize)
      decreases |rows| - start
    {
      var end := if start + batchSize <= |rows| then start + batchSize else |rows|;
      SliceJoins(rows, start, end);
      inserted, batches := Flush(cursor, batches, rows[..start], rows[start..end], inserted, batchSize);
      start, upto := start + batchSize, end;
    }
    assert rows[..upto] == rows;
  }

  // ---------------------------------------------------------------------------
  // Organisations

  /** Organisation i: a random slug followed by its zero-padded index. */
  function OrgRows(enterprise: string, slug: nat -> string, n: nat): (rows: seq<Row>)
    ensures |rows| == n
    ensures forall i :: 0 <= i < n ==> rows[i] == Row(enterprise, slug(i) + "-" + Padded(i), 100_000 + i)
  {
    if n == 0 then []
    else OrgRows(enterprise, slug, n - 1) + [Row(enterprise, slug(n - 1) + "-" + Padded(n - 1), 100_000 + n - 1)]
  }

  lemma OrgNamesDiffer(enterprise: string, slug: nat -> string, n: nat)
    ensures forall i, j :: 0 <= i < j < n ==> OrgRows(enterprise, slug, n)[i].name != OrgRows(enterprise, slug, n)[j].name
    ensures DistinctKeys(OrgRows(enterprise, slug, n))
  {
    hide Padded;
    forall i: nat, j: nat | 0 <= i < j < n
      ensures OrgRows(enterprise, slug, n)[i].name != OrgRows(enterprise, slug, n)[j].name
    {
      NumberedNamesDiffer(slug(i), i, slug(j), j);
    }
  }

  method SeedOrgs(cursor: TableCursor, enterprise: string, slug: nat -> string, orgs: nat, batchSize: nat)
    returns (inserted: nat, ghost batches: seq<seq<Row>>)
    requires 1 <= batchSize
    modifies cursor
    ensures cursor.rows == OrgRows(enterprise, slug, orgs)
    ensures inserted == |cursor.rows| == orgs
    ensures Concat(batches) == cursor.rows && BatchSizes(batches, batchSize)
  {
    hide OrgRows, Padded, Written, DistinctKeys;
    var rows := OrgRows(enterprise, slug, orgs);
    cursor.Truncate();
    inserted, batches := WriteInSlices(cursor, rows, batchSize);
    OrgNamesDiffer(enterprise, slug, orgs);
    WrittenAll(cursor.rows, batches, rows, inserted, batchSize);
  }

  // ---------------------------------------------------------------------------
  // Memberships

  ghost predicate DistinctNames(names: seq<string>) {
    forall i, j :: 0 <= i < j < |names| ==> names[i] != names[j]
  }

  /** random.sample(logins, k): k of the logins without replacement. */
  ghost predicate IsSample(sample: seq<string>, logins: seq<string>, k: nat) {
    |sample| == k && DistinctNames(sample) && forall i :: 0 <= i < k ==> sample[i] in logins
  }

  function RowsOf(org: string, members: seq<string>, firstId: nat): (rows: seq<Row>)
    ensures |rows| == |members|
    ensures forall i :: 0 <= i < |rows| ==> rows[i] == Row(org, members[i], firstId + i)
  {
    if members == [] then [] else [Row(org, members[0], firstId)] + RowsOf(org, members[1..], firstId + 1)
  }

  function MembershipRows(orgs: seq<string>, samples: seq<seq<string>>, firstId: nat): seq<Row>
    requires |orgs| == |samples|
    decreases |orgs|
  {
    if orgs == [] then []
    else RowsOf(orgs[0], samples[0], firstId) + MembershipRows(orgs[1..], samples[1..], firstId + |samples[0]|)
  }

  lemma {:induction false} MembershipKeysDistinct(orgs: seq<string>, samples: seq<seq<string>>, firstId: nat)
    requires |orgs| == |samples| && DistinctNames(orgs)
    requires forall i :: 0 <= i < |samples| ==> DistinctNames(samples[i])
    ensures DistinctKeys(MembershipRows(orgs, samples, firstId))
    ensures forall r :: r in MembershipRows(orgs, samples, firstId) ==> r.owner in orgs
    decreases |orgs|
  {
    if orgs != [] {
      var head := RowsOf(orgs[0], samples[0], firstId);
      var tail := MembershipRows(orgs[1..], samples[1..], firstId + |samples[0]|);
      MembershipKeysDistinct(orgs[1..], samples[1..], firstId + |samples[0]|);
      forall r | r in tail ensures r.owner != orgs[0] && r.owner in orgs {
        var k :| 0 <= k < |orgs[1..]| && orgs[1..][k] == r.owner;
        assert orgs[0] != orgs[k + 1];
      }
      OwnersApart(head, tail, orgs[0]);
      assert orgs[0] in orgs;
    }
  }

  lemma OwnersApart(head: seq<Row>, tail: seq<Row>, owner: string)
    requires DistinctKeys(head) && DistinctKeys(tail)
    requires forall r :: r in head ==> r.owner == owner
    requires forall r :: r in tail ==> r.owner != owner
    ensures DistinctKeys(head + tail)
  {
    forall i, j | 0 <= i < j < |head + tail| ensures !SameKey((head + tail)[i], (head + tail)[j]) {
      if i < |head| <= j {
        assert head[i] in head && tail[j - |head|] in tail;
      }
    }
  }

  /** random.shuffle, with any choice of index at each step. */
  method Shuffled(rows: seq<Row>) returns (out: seq<Row>)
    ensures multiset(out) == multiset(rows)
  {
    out := rows;
    var i := |rows|;
    while i > 1
      invariant multiset(out) == multiset(rows) && |out| == |rows| && i <= |rows|
    {
      i := i - 1;
      var j: int :| 0 <= j <= i;
      out := out[i := out[j]][j := out[i]];
    }
  }

  lemma {:induction false} ReorderedKeysDistinct(a: seq<Row>, b: seq<Row>)
    requires multiset(a) == multiset(b) && DistinctKeys(a)
    ensures DistinctKeys(b)
  {
    forall i, j | 0 <= i < j < |b| ensures !SameKey(b[i], b[j]) {
      if b[i] == b[j] {
        TwiceIn(b, i, j);
        OnceIn(a, b[i]);
      } else {
        assert b[i] in multiset(a) && b[j] in multiset(a);
        var k :| 0 <= k < |a| && a[k] == b[i];
        var l :| 0 <= l < |a| && a[l] == b[j];
        assert if k < l then !SameKey(a[k], a[l]) else !SameKey(a[l], a[k]);
      }
    }
  }

  lemma TwiceIn(s: seq<Row>, i: nat, j: nat)
    requires i < j < |s| && s[i] == s[j]
    ensures multiset(s)[s[i]] >= 2
  {
    assert s == s[..i] + [s[i]] + s[i + 1..j] + [s[j]] + s[j + 1..];
  }

  lemma {:induction false} OnceIn(s: seq<Row>, r: Row)
    requires DistinctKeys(s)
    ensures multiset(s)[r] <= 1
  {
    if s != [] {
      assert s == [s[0]] + s[1..];
      OnceIn(s[1..], r);
      assert forall k :: 0 <= k < |s[1..]| ==> s[1..][k] == s[k + 1] && !SameKey(s[0], s[k + 1]);
    }
  }

  method SeedMembers(cursor: TableCursor, orgs: seq<string>, logins: seq<string>, targets: seq<nat>,
                     samples: seq<seq<string>>, batchSize: nat)
    returns (total: nat, ghost batches: seq<seq<Row>>)
    requires 1 <= batchSize
    requires |orgs| == |targets| == |samples| && DistinctNames(orgs)
    requires forall i :: 0 <= i < |orgs| ==>
      IsSample(samples[i], logins, if targets[i] <= |logins| then targets[i] else |logins|)
    modifies cursor
    ensures multiset(cursor.rows) == multiset(MembershipRows(orgs, samples, 1_000_000))
    ensures total == |cursor.rows|
    ensures Concat(batches) == cursor.rows && BatchSizes(batches, batchSize)
  {
    hide Written, DistinctKeys, MembershipRows, BatchSizes;
    cursor.Truncate();
    var memberships := GenerateMemberships(orgs, samples);
    MembershipKeysDistinct(orgs, samples, 1_000_000);
    var shuffled := Shuffled(memberships);
    ReorderedKeysDistinct(memberships, shuffled);
    total, batches := WriteInSlices(cursor, shuffled, batchSize);
    WrittenAll(cursor.rows, batches, shuffled, total, batchSize);
  }

  method GenerateMemberships(orgs: seq<string>, samples: seq<seq<string>>) returns (memberships: seq<Row>)
    requires |orgs| == |samples|
    ensures memberships == MembershipRows(orgs, samples, 1_000_000)
  {
    hide MembershipRows;
    memberships := [];
    var githubId: nat := 1_000_000;
    assert orgs[0..] == orgs && samples[0..] == samples;
    for i := 0 to |orgs|
      invariant memberships + MembershipRows(orgs[i..], samples[i..], githubId)
             == MembershipRows(orgs, samples, 1_000_000)
    {
      MembershipStep(orgs, samples, i, githubId);
      var rows := RowsOf(orgs[i], samples[i], githubId);
      Regroup(memberships, rows, MembershipRows(orgs[i + 1..], samples[i + 1..], githubId + |samples[i]|));
      memberships := memberships + rows;
      githubId := githubId + |samples[i]|;
    }
    NoMoreMemberships(orgs[|orgs|..], samples[|orgs|..], githubId, memberships);
  }

  lemma MembershipStep(orgs: seq<string>, samples: seq<seq<string>>, i: nat, firstId: nat)
    requires i < |orgs| == |samples|
    ensures MembershipRows(orgs[i..], samples[i..], firstId)
         == RowsOf(orgs[i], samples[i], firstId) + MembershipRows(orgs[i + 1..], samples[i + 1..], firstId + |samples[i]|)
  {
    assert orgs[i..][1..] == orgs[i + 1..] && samples[i..][1..] == samples[i + 1..];
  }

  lemma NoMoreMemberships(orgs: seq<string>, samples: seq<seq<string>>, firstId: nat, rows: seq<Row>)
    requires |orgs| == |samples| == 0
    ensures rows + MembershipRows(orgs, samples, firstId) == rows
  {
  }

  lemma Regroup(a: seq<Row>, b: seq<Row>, c: seq<Row>)
    ensures a + b + c == a + (b + c)
  {
  }

  // ---------------------------------------------------------------------------
  // Repositories

  /** Repositories j, j + 1, ... of one organisation, numbered on from `id`. */
  function ReposFrom(org: string, words: nat -> string, j: nat, count: nat, id: nat): (rows: seq<Row>)
    requires j <= count
    ensures |rows| == count - j
    ensures forall k :: 0 <= k < |rows| ==> rows[k] == Row(org, words(id + k) + "-" + Padded(j + k), id + k)
    decreases count - j
  {
    if j == count then []
    else [Row(org, words(id) + "-" + Padded(j), id)] + ReposFrom(org, words, j + 1, count, id + 1)
  }

  function RepoRows(orgs: seq<string>, counts: seq<nat>, words: nat -> string, id: nat): seq<Row>
    requires |orgs| == |counts|
    decreases |orgs|
  {
    if orgs == [] then []
    else ReposFrom(orgs[0], words, 0, counts[0], id) + RepoRows(orgs[1..], counts[1..], words, id + counts[0])
  }

  lemma RepoNamesDiffer(org: string, words: nat -> string, count: nat, id: nat)
    ensures DistinctKeys(ReposFrom(org, words, 0, count, id))
  {
    hide Padded;
    var rows := ReposFrom(org, words, 0, count, id);
    forall i: nat, j: nat | 0 <= i < j < |rows| ensures !SameKey(rows[i], rows[j]) {
      NumberedNamesDiffer(words(id + i), i, words(id + j), j);
    }
  }

  lemma {:induction false} RepoKeysDistinct(orgs: seq<string>, counts: seq<nat>, words: nat -> string, id: nat)
    requires |orgs| == |counts| && DistinctNames(orgs)
    ensures DistinctKeys(RepoRows(orgs, counts, words, id))
    ensures forall r :: r in RepoRows(orgs, counts, words, id) ==> r.owner in orgs
    decreases |orgs|
  {
    hide Padded;
    if orgs != [] {
      var head := ReposFrom(orgs[0], words, 0, counts[0], id);
      var tail := RepoRows(orgs[1..], counts[1..], words, id + counts[0]);
      RepoKeysDistinct(orgs[1..], counts[1..], words, id + counts[0]);
      RepoNamesDiffer(orgs[0], words, counts[0], id);
      forall r | r in tail ensures r.owner != orgs[0] && r.owner in orgs {
        var k :| 0 <= k < |orgs[1..]| && orgs[1..][k] == r.owner;
        assert orgs[0] != orgs[k + 1];
      }
      OwnersApart(head, tail, orgs[0]);
      assert orgs[0] in orgs;
    }
  }

  /** One organisation's repositories through the flush buffer: a batch goes out as soon as the
      buffer is full. `done` is what was written, `buffer` what is still held back. */
  method SeedReposOf(cursor: TableCursor, org: string, count: nat, words: nat -> string, firstId: nat,
                     buffer: seq<Row>, inserted: nat, batchSize: nat, ghost batches: seq<seq<Row>>, ghost done: seq<Row>)
    returns (buffer': seq<Row>, inserted': nat, ghost batches': seq<seq<Row>>, ghost done': seq<Row>)
    requires 1 <= batchSize && |buffer| < batchSize && AllFull(batches, batchSize)
    requires Written(cursor.rows, batches, done, inserted, batchSize)
    modifies cursor
    ensures Written(cursor.rows, batches', done', inserted', batchSize)
    ensures |buffer'| < batchSize && AllFull(batches', batchSize)
    ensures done' + buffer' == done + buffer + ReposFrom(org, words, 0, count, firstId)
  {
    hide Written, Padded, ReposFrom, AllFull;
    buffer', inserted', batches', done' := buffer, inserted, batches, done;
    var repoId := firstId;
    ghost var soFar := done + buffer;
    for j := 0 to count
      invariant repoId == firstId + j && |buffer'| < batchSize && AllFull(batches', batchSize)
      invariant Written(cursor.rows, batches', done', inserted', batchSize)
      invariant done' + buffer' == soFar
      invariant soFar + ReposFrom(org, words, j, count, repoId) == done + buffer + ReposFrom(org, words, 0, count, firstId)
    {
      var row := Row(org, words(repoId) + "-" + Padded(j), repoId);
      ReposStep(org, words, j, count, repoId);
      Regroup(soFar, [row], ReposFrom(org, words, j + 1, count, repoId + 1));
      Regroup(done', buffer', [row]);
      buffer', soFar := buffer' + [row], soFar + [row];
      repoId := repoId + 1;
      if |buffer'| >= batchSize {
        inserted', batches' := Flush(cursor, batches', done', buffer', inserted', batchSize);
        done', buffer' := soFar, [];
        NothingAdded(soFar);
      }
    }
    NoMoreRepos(org, words, count, repoId, soFar);
  }

  lemma ReposStep(org: string, words: nat -> string, j: nat, count: nat, id: nat)
    requires j < count
    ensures ReposFrom(org, words, j, count, id)
         == [Row(org, words(id) + "-" + Padded(j), id)] + ReposFrom(org, words, j + 1, count, id + 1)
  {
  }

  lemma NoMoreRepos(org: string, words: nat -> string, count: nat, id: nat, rows: seq<Row>)
    ensures rows + ReposFrom(org, words, count, count, id) == rows
  {
  }

  lemma NothingAdded(rows: seq<Row>)
    ensures rows + [] == rows
  {
  }

  lemma RepoRowsStep(orgs: seq<string>, counts: seq<nat>, words: nat -> string, i: nat, id: nat)
    requires i < |orgs| == |counts|
    ensures RepoRows(orgs[i..], counts[i..], words, id)
         == ReposFrom(orgs[i], words, 0, counts[i], id) + RepoRows(orgs[i + 1..], counts[i + 1..], words, id + counts[i])
  {
    assert orgs[i..][1..] == orgs[i + 1..] && counts[i..][1..] == counts[i + 1..];
  }

  lemma NoMoreRepoRows(orgs: seq<string>, counts: seq<nat>, words: nat -> string, id: nat, rows: seq<Row>)
    requires |orgs| == |counts| == 0
    ensures rows + RepoRows(orgs, counts, words, id) == rows
  {
  }

  method SeedRepos(cursor: TableCursor, orgs: seq<string>, counts: seq<nat>, words: nat -> string, batchSize: nat)
    returns (totalInserted: nat, ghost batches: seq<seq<Row>>)
    requires 1 <= batchSize
    requires |orgs| == |counts| && DistinctNames(orgs)
    modifies cursor
    ensures cursor.rows == RepoRows(orgs, counts, words, 200_000_000)
    ensures totalInserted == |cursor.rows|
    ensures Concat(batches) == cursor.rows && BatchSizes(batches, batchSize)
  {
    hide Padded, DistinctKeys, Written, BatchSizes, RepoRows, ReposFrom, AllFull;
    cursor.Truncate();
    NothingWritten(batchSize);
    var repoId: nat := 200_000_000;
    var repoBatch: seq<Row> := [];
    ghost var done: seq<Row> := [];
    ghost var all := RepoRows(orgs, counts, words, 200_000_000);
    totalInserted, batches := 0, [];
    assert orgs[0..] == orgs && counts[0..] == counts;
    for i := 0 to |orgs|
      invariant |repoBatch| < batchSize && AllFull(batches, batchSize)
      invariant Written(cursor.rows, batches, done, totalInserted, batchSize)
      invariant done + repoBatch + RepoRows(orgs[i..], counts[i..], words, repoId) == all
    {
      RepoRowsStep(orgs, counts, words, i, repoId);
      Regroup(done + repoBatch, ReposFrom(orgs[i], words, 0, counts[i], repoId),
              RepoRows(orgs[i + 1..], counts[i + 1..], words, repoId + counts[i]));
      repoBatch, totalInserted, batches, done :=
        SeedReposOf(cursor, orgs[i], counts[i], words, repoId, repoBatch, totalInserted, batchSize, batches, done);
      repoId := repoId + counts[i];
    }
    NoMoreRepoRows(orgs[|orgs|..], counts[|orgs|..], words, repoId, done + repoBatch);
    if repoBatch != [] {
      totalInserted, batches := Flush(cursor, batches, done, repoBatch, totalInserted, batchSize);
    } else {
      NothingAdded(done);
    }
    RepoKeysDistinct(orgs, counts, words, 200_000_000);
    WrittenAll(cursor.rows, batches, all, totalInserted, batchSize);
  }

  // ---------------------------------------------------------------------------
  // Each row itself

  function Total(sizes: seq<nat>): nat {
    if sizes == [] then 0 else sizes[0] + Total(sizes[1..])
  }

  function Sizes(samples: seq<seq<string>>): (sizes: seq<nat>)
    ensures |sizes| == |samples| && forall i :: 0 <= i < |samples| ==> sizes[i] == |samples[i]|
  {
    seq(|samples|, i requires 0 <= i < |samples| => |samples[i]|)
  }

  /** Member j of organisation i has the row behind those of the organisations before it and of the
      members before it, numbered by its place. */
  lemma {:induction false} MembershipRowAt(orgs: seq<string>, samples: seq<seq<string>>, firstId: nat, i: nat, j: nat)
    requires |orgs| == |samples|
    ensures |MembershipRows(orgs, samples, firstId)| == Total(Sizes(samples))
    ensures i < |samples| && j < |samples[i]| ==>
              var at := Total(Sizes(samples[..i])) + j;
              at < |MembershipRows(orgs, samples, firstId)|
              && MembershipRows(orgs, samples, firstId)[at] == Row(orgs[i], samples[i][j], firstId + at)
    decreases |orgs|
  {
    if orgs != [] {
      var rest := MembershipRows(orgs[1..], samples[1..], firstId + |samples[0]|);
      assert Sizes(samples)[1..] == Sizes(samples[1..]);
      MembershipRowAt(orgs[1..], samples[1..], firstId + |samples[0]|, if i == 0 then 0 else i - 1, j);
      if 0 < i < |samples| {
        assert Sizes(samples[..i])[1..] == Sizes(samples[1..][..i - 1]);
        assert samples[1..][i - 1] == samples[i] && orgs[1..][i - 1] == orgs[i];
      } else {
        assert Sizes(samples[..0]) == [];
      }
    }
  }

  /** Repository j of organisation i likewise, its name the generator's word and its padded number. */
  lemma {:induction false} RepoRowAt(orgs: seq<string>, counts: seq<nat>, words: nat -> string, id: nat, i: nat, j: nat)
    requires |orgs| == |counts|
    ensures |RepoRows(orgs, counts, words, id)| == Total(counts)
    ensures i < |counts| && j < counts[i] ==>
              var at := Total(counts[..i]) + j;
              at < |RepoRows(orgs, counts, words, id)|
              && RepoRows(orgs, counts, words, id)[at] == Row(orgs[i], words(id + at) + "-" + Padded(j), id + at)
    decreases |orgs|
  {
    hide Padded;
    if orgs != [] {
      RepoRowAt(orgs[1..], counts[1..], words, id + counts[0], if i == 0 then 0 else i - 1, j);
      if 0 < i < |counts| {
        assert counts[..i][1..] == counts[1..][..i - 1];
        assert counts[1..][i - 1] == counts[i] && orgs[1..][i - 1] == orgs[i];
      } else {
        assert counts[..0] == [];
      }
    }
  }

  /** ON CONFLICT DO NOTHING: the table keeps its rows in place and its keys distinct, every key
      offered is in it, and what was added is the first row offered with its key. */
  lemma {:induction false} ConflictsKeepTheFirst(table: seq<Row>, rows: seq<Row>)
    requires DistinctKeys(table)
    ensures table <= InsertAll(table, rows) && DistinctKeys(InsertAll(table, rows))
    ensures forall r :: r in rows ==> HasKey(InsertAll(table, rows), r)
    ensures forall r :: r in InsertAll(table, rows) ==> r in table || FirstOffered(rows, r)
    decreases |rows|
  {
    if rows != [] {
      var next := if HasKey(table, rows[0]) then table else table + [rows[0]];
      ConflictsKeepTheFirst(next, rows[1..]);
      var after := InsertAll(next, rows[1..]);
      FirstIsThere(table, rows[0]);
      StillThere(next, after, rows[0]);
      assert rows == [rows[0]] + rows[1..];
      forall r | r in after ensures r in table || FirstOffered(rows, r) {
        OfferedAgain(table, rows, next, after, r);
      }
    }
  }

  ghost predicate FirstOffered(rows: seq<Row>, r: Row) {
    exists k: nat :: k < |rows| && rows[k] == r && !HasKey(rows[..k], r)
  }

  lemma StillThere(table: seq<Row>, after: seq<Row>, row: Row)
    requires table <= after && HasKey(table, row)
    ensures HasKey(after, row)
  {
    var i :| 0 <= i < |table| && SameKey(table[i], row);
    assert after[i] == table[i];
  }

  lemma NoRival(table: seq<Row>, after: seq<Row>, r: Row)
    requires table <= after && DistinctKeys(after) && r in after && r !in table
    ensures !HasKey(table, r)
  {
    var k :| 0 <= k < |after| && after[k] == r;
    forall i | 0 <= i < |table| ensures !SameKey(table[i], r) {
      assert after[i] == table[i] && table[i] in table;
    }
  }

  lemma FirstIsThere(table: seq<Row>, row: Row)
    ensures HasKey(if HasKey(table, row) then table else table + [row], row)
  {
    assert (table + [row])[|table|] == row;
  }

  lemma KeyOf(table: seq<Row>, a: Row, b: Row)
    requires HasKey(table, a) && SameKey(a, b)
    ensures HasKey(table, b)
  {
  }

  lemma LaterOffer(rows: seq<Row>, r: Row)
    requires rows != [] && FirstOffered(rows[1..], r) && !SameKey(rows[0], r)
    ensures FirstOffered(rows, r)
  {
    var k: nat :| k < |rows[1..]| && rows[1..][k] == r && !HasKey(rows[1..][..k], r);
    var before, later := rows[..k + 1], rows[1..][..k];
    forall i | 0 <= i < |before| ensures !SameKey(before[i], r) {
      assert i > 0 ==> before[i] == later[i - 1];
    }
    assert rows[k + 1] == r;
  }

  lemma OfferedAgain(table: seq<Row>, rows: seq<Row>, next: seq<Row>, after: seq<Row>, r: Row)
    requires rows != [] && r in after && next <= after && DistinctKeys(after)
    requires next == if HasKey(table, rows[0]) then table else table + [rows[0]]
    requires r in next || FirstOffered(rows[1..], r)
    ensures r in table || FirstOffered(rows, r)
  {
    hide DistinctKeys, HasKey;
    FirstIsThere(table, rows[0]);
    if r == rows[0] {
      NothingBefore(rows);
    } else if r !in next {
      NoRival(next, after, r);
      if SameKey(rows[0], r) {
        KeyOf(next, rows[0], r);
      } else {
        LaterOffer(rows, r);
      }
    }
  }

  lemma NothingBefore(rows: seq<Row>)
    requires rows != []
    ensures FirstOffered(rows, rows[0])
  {
    assert !HasKey(rows[..0], rows[0]);
  }
}
