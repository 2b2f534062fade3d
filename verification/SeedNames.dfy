/** Unique names for the seeded users and bots (scripts/seed_demo_data.py, seed_users and
    seed_bot_events): retry loops over a set of names seen so far. The random choices may be
    anything in their stated range. */
module SeedNames {
  import opened Decimals

  ghost predicate Distinct(names: seq<string>) {
    forall i, j :: 0 <= i < j < |names| ==> names[i] != names[j]
  }

  /** Appending random numbers until the login is new: each retry lengthens the login, and no
      login seen is longer than `longest`. */
  method FreshLogin(base: string, seen: set<string>, ghost longest: nat) returns (login: string)
    requires forall s :: s in seen ==> |s| <= longest
    ensures login !in seen && base <= login && AllDigits(login[|base|..])
    ensures base !in seen ==> login == base
  {
    login := base;
    while login in seen
      invariant base <= login && AllDigits(login[|base|..])
      invariant base !in seen ==> login == base
      decreases longest + 1 - |login|
    {
      var suffix: nat :| 1 <= suffix <= 999;
      ValueOfDecimal(suffix);
      DigitsJoin(login[|base|..], Decimal(suffix));
      assert (login + Decimal(suffix))[|base|..] == login[|base|..] + Decimal(suffix);
      login := login + Decimal(suffix);
    }
  }

  /** A generated name not taken by an earlier user is kept as it is. */
  ghost predicate KeepsNewNames(logins: seq<string>, base: nat -> string) {
    forall i :: 0 <= i < |logins| && base(i) !in logins[..i] ==> logins[i] == base(i)
  }

  lemma KeepOneMore(logins: seq<string>, base: nat -> string, login: string)
    requires KeepsNewNames(logins, base)
    requires base(|logins|) !in logins ==> login == base(|logins|)
    ensures KeepsNewNames(logins + [login], base)
  {
    forall i | 0 <= i <= |logins| ensures (logins + [login])[..i] == logins[..i] {
    }
    assert logins[..|logins|] == logins;
  }

  lemma NoneDistinct(base: nat -> string)
    ensures Distinct([]) && KeepsNewNames([], base)
  {
  }

  lemma DistinctOneMore(names: seq<string>, name: string)
    requires Distinct(names) && name !in names
    ensures Distinct(names + [name])
  {
  }

  /** `base(i)` is whatever the generator returns for user i. */
  method SeedLogins(users: nat, base: nat -> string) returns (logins: seq<string>)
    ensures |logins| == users && Distinct(logins)
    ensures forall i :: 0 <= i < users ==> base(i) <= logins[i] && AllDigits(logins[i][|base(i)|..])
    ensures KeepsNewNames(logins, base)
  {
    hide Distinct, KeepsNewNames;
    NoneDistinct(base);
    logins := [];
    var seenLogins: set<string> := {};
    ghost var longest: nat := 0;
    for i := 0 to users
      invariant |logins| == i && Distinct(logins)
      invariant forall s :: s in seenLogins <==> s in logins
      invariant forall s :: s in seenLogins ==> |s| <= longest
      invariant forall k :: 0 <= k < i ==> base(k) <= logins[k] && AllDigits(logins[k][|base(k)|..])
      invariant KeepsNewNames(logins, base)
    {
      var login := FreshLogin(base(i), seenLogins, longest);
      seenLogins := seenLogins + {login};
      longest := if |login| > longest then |login| else longest;
      KeepOneMore(logins, base, login);
      DistinctOneMore(logins, login);
      logins := logins + [login];
    }
  }

  const BOT := "[bot]"

  function Candidate(stem: string, counter: nat): string {
    stem + "-" + Decimal(counter) + BOT
  }

  lemma CandidateNumber(stem: string, c: nat)
    ensures var s := Candidate(stem, c);
            |s| > |stem| + |BOT| && s[|stem| + 1..|s| - |BOT|] == Decimal(c)
  {
    ValueOfDecimal(c);
  }

  lemma CandidatesDiffer(stem: string, i: nat, j: nat)
    requires i != j
    ensures Candidate(stem, i) != Candidate(stem, j)
  {
    hide Candidate, Value, Decimal;
    CandidateNumber(stem, i);
    CandidateNumber(stem, j);
    ValueOfDecimal(i);
    ValueOfDecimal(j);
  }

  predicate EndsInBot(s: string) {
    |s| >= |BOT| && s[|s| - |BOT|..] == BOT
  }

  /** Numbering a taken name until it is new: the numbered names differ from one another, so
      they cannot all be among the finitely many seen. */
  method FreshBotLogin(stem: string, seen: set<string>) returns (login: string)
    ensures login !in seen && EndsInBot(login) && stem <= login
    ensures stem + "[bot]" !in seen ==> login == stem + "[bot]"
    ensures stem + "[bot]" in seen ==>
      exists c :: 1 <= c <= |seen| && login == stem + "-" + Decimal(c) + "[bot]"
        && forall b :: 1 <= b < c ==> stem + "-" + Decimal(b) + "[bot]" in seen
  {
    login := stem + BOT;
    var base := login;
    var counter := 1;
    ghost var tried: set<string> := {};
    while login in seen
      invariant base == stem + BOT
      invariant 1 <= counter == |tried| + 1
      invariant login == if counter == 1 then base else Candidate(stem, counter - 1)
      invariant tried <= seen
      invariant forall b :: 1 <= b < counter - 1 ==> Candidate(stem, b) in seen
      invariant counter > 1 ==> base in seen
      invariant forall s :: s in tried ==> s == base || exists c :: 1 <= c < counter - 1 && s == Candidate(stem, c)
      invariant counter == 1 <==> base !in tried
      decreases |seen| - |tried|
    {
      NotTried(stem, tried, counter, login);
      tried := tried + {login};
      SubsetSize(tried, seen);
      assert base[..|base| - |BOT|] == stem;
      login := base[..|base| - |BOT|] + "-" + Decimal(counter) + BOT;
      counter := counter + 1;
    }
    SubsetSize(tried, seen);
    if counter > 1 {
      assert login == stem + "-" + Decimal(counter - 1) + "[bot]";
      forall b | 1 <= b < counter - 1 ensures stem + "-" + Decimal(b) + "[bot]" in seen {
        assert Candidate(stem, b) in seen;
      }
    }
  }

  lemma NotTried(stem: string, tried: set<string>, counter: nat, login: string)
    requires 1 <= counter == |tried| + 1
    requires login == if counter == 1 then stem + BOT else Candidate(stem, counter - 1)
    requires forall s :: s in tried ==> s == stem + BOT || exists c :: 1 <= c < counter - 1 && s == Candidate(stem, c)
    ensures login !in tried
  {
    if counter > 1 {
      CandidateNumber(stem, counter - 1);
      forall c | 1 <= c < counter - 1 ensures Candidate(stem, c) != login {
        CandidatesDiffer(stem, c, counter - 1);
      }
    }
  }

  lemma SubsetSize(a: set<string>, b: set<string>)
    requires a <= b
    ensures |a| <= |b|
  {
    assert b == a + (b - a);
  }

  /** A bot has its plain name when no earlier bot does, and otherwise a numbered one. */
  ghost predicate NamedAfter(logins: seq<string>, i: nat, stem: string)
    requires i < |logins|
  {
    if stem + "[bot]" !in logins[..i] then logins[i] == stem + "[bot]"
    else exists c :: 1 <= c <= i && logins[i] == stem + "-" + Decimal(c) + "[bot]"
  }

  lemma NameOneMore(logins: seq<string>, stem: nat -> string, login: string, seen: set<string>)
    requires forall s :: s in seen <==> s in logins
    requires |seen| == |logins| && forall k :: 0 <= k < |logins| ==> NamedAfter(logins, k, stem(k))
    requires var name := stem(|logins|);
             if name + "[bot]" !in seen then login == name + "[bot]"
             else exists c :: 1 <= c <= |seen| && login == name + "-" + Decimal(c) + "[bot]"
    ensures forall k :: 0 <= k <= |logins| ==> NamedAfter(logins + [login], k, stem(k))
  {
    forall k | 0 <= k <= |logins| ensures NamedAfter(logins + [login], k, stem(k)) {
      assert (logins + [login])[..k] == logins[..k];
      assert logins[..|logins|] == logins;
      if k < |logins| {
        assert NamedAfter(logins, k, stem(k));
      }
    }
  }

  method SeedBotLogins(bots: nat, stem: nat -> string) returns (logins: seq<string>)
    ensures |logins| == bots && Distinct(logins)
    ensures forall i :: 0 <= i < bots ==> EndsInBot(logins[i]) && stem(i) <= logins[i] && NamedAfter(logins, i, stem(i))
  {
    hide NamedAfter;
    logins := [];
    var seenBotLogins: set<string> := {};
    for i := 0 to bots
      invariant |logins| == i && Distinct(logins) && |seenBotLogins| == i
      invariant forall s :: s in seenBotLogins <==> s in logins
      invariant forall k :: 0 <= k < i ==> EndsInBot(logins[k]) && stem(k) <= logins[k]
      invariant forall k :: 0 <= k < i ==> NamedAfter(logins, k, stem(k))
    {
      var login := FreshBotLogin(stem(i), seenBotLogins);
      NameOneMore(logins, stem, login, seenBotLogins);
      seenBotLogins := seenBotLogins + {login};
      logins := logins + [login];
    }
  }
}
