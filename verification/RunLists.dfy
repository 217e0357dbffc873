// Lists of runs with distinct ids.

module RunLists {
  import opened Runs
  import opened RingSpec
  import opened RunnerSpec

  ghost predicate DistinctIDs(s: seq<Run>) {
    forall i, j :: 0 <= i < j < |s| ==> s[i].id != s[j].id
  }

  function Members(s: seq<Run>): set<Run> {
    set r | r in s
  }

  function Without(s: seq<Run>, d: set<Run>): seq<Run> {
    if s == [] then []
    else if s[0] in d then Without(s[1..], d)
    else [s[0]] + Without(s[1..], d)
  }

  function RunsOf(os: seq<Outcome>): (rs: seq<Run>)
    ensures |rs| == |os| && forall i :: 0 <= i < |os| ==> rs[i] == os[i].run
  {
    seq(|os|, i requires 0 <= i < |os| => os[i].run)
  }

  // The outcomes that are sent on a Done channel.
  function Sent(os: seq<Outcome>): seq<Outcome> {
    if os == [] then [] else NotifyOne(os[0]) + Sent(os[1..])
  }

  lemma SameID(s: seq<Run>, a: Run, b: Run)
    requires DistinctIDs(s) && a in s && b in s && a.id == b.id
    ensures a == b
  {
  }

  lemma {:induction false} WithoutHas(s: seq<Run>, d: set<Run>, r: Run)
    ensures r in Without(s, d) <==> r in s && r !in d
  {
    if s != [] {
      assert s == [s[0]] + s[1..];
      WithoutHas(s[1..], d, r);
    }
  }

  lemma {:induction false} WithoutConcat(a: seq<Run>, b: seq<Run>, d: set<Run>)
    ensures Without(a + b, d) == Without(a, d) + Without(b, d)
  {
    if a == [] {
      assert a + b == b;
    } else {
      assert (a + b)[1..] == a[1..] + b;
      WithoutConcat(a[1..], b, d);
    }
  }

  lemma {:induction false} WithoutTwice(s: seq<Run>, d: set<Run>, h: set<Run>)
    ensures Without(s, d + h) == Without(Without(s, d), h)
  {
    if s != [] {
      WithoutTwice(s[1..], d, h);
      if s[0] !in d {
        assert Without(s, d)[1..] == Without(s[1..], d);
      }
    }
  }

  lemma {:induction false} WithoutStrangers(s: seq<Run>, d: set<Run>)
    requires forall r :: r in s ==> r !in d
    ensures Without(s, d) == s
  {
    if s != [] {
      WithoutStrangers(s[1..], d);
    }
  }

  lemma {:induction false} WithoutDistinct(s: seq<Run>, d: set<Run>)
    requires DistinctIDs(s)
    ensures DistinctIDs(Without(s, d))
  {
    if s != [] {
      WithoutDistinct(s[1..], d);
      forall r | r in Without(s[1..], d) ensures r.id != s[0].id {
        WithoutHas(s[1..], d, r);
      }
    }
  }

  lemma {:induction false} HitHas(s: seq<Run>, which: Which, r: Run)
    ensures r in Hit(s, which) <==> r in s && Hits(which, r)
  {
    if s != [] {
      assert s == [s[0]] + s[1..];
      HitHas(s[1..], which, r);
    }
  }

  lemma {:induction false} HitDistinct(s: seq<Run>, which: Which)
    requires DistinctIDs(s)
    ensures DistinctIDs(Hit(s, which))
  {
    if s != [] {
      HitDistinct(s[1..], which);
      forall r | r in Hit(s[1..], which) ensures r.id != s[0].id {
        HitHas(s[1..], which, r);
      }
    }
  }

  lemma {:induction false} MissedIsWithout(s: seq<Run>, which: Which, h: set<Run>)
    requires forall r :: r in s ==> (r in h <==> Hits(which, r))
    ensures Missed(s, which) == Without(s, h)
  {
    if s != [] {
      MissedIsWithout(s[1..], which, h);
    }
  }

  lemma {:induction false} FirstWithIdHas(s: seq<Run>, id: int)
    ensures FirstWithId(s, id).Some? ==> FirstWithId(s, id).value in s && FirstWithId(s, id).value.id == id
    ensures FirstWithId(s, id).None? ==> forall r :: r in s ==> r.id != id
  {
    if s != [] {
      assert s == [s[0]] + s[1..];
      FirstWithIdHas(s[1..], id);
    }
  }

  lemma {:induction false} DropIsWithout(s: seq<Run>, id: int)
    requires DistinctIDs(s)
    ensures DropFirstId(s, id) == Without(s, Members(Shown(FirstWithId(s, id))))
  {
    FirstWithIdHas(s, id);
    if s != [] {
      if s[0].id == id {
        WithoutStrangers(s[1..], {s[0]});
        assert Members([s[0]]) == {s[0]};
      } else {
        DropIsWithout(s[1..], id);
      }
    }
  }

  lemma {:induction false} NotifyAllConcat(a: seq<Run>, b: seq<Run>)
    ensures NotifyAll(a + b) == NotifyAll(a) + NotifyAll(b)
  {
    if a == [] {
      assert a + b == b;
    } else {
      assert (a + b)[1..] == a[1..] + b;
      NotifyAllConcat(a[1..], b);
    }
  }

  lemma {:induction false} SentSnoc(os: seq<Outcome>, o: Outcome)
    ensures Sent(os + [o]) == Sent(os) + NotifyOne(o)
  {
    if os == [] {
      assert os + [o] == [o];
    } else {
      assert (os + [o])[1..] == os[1..] + [o];
      SentSnoc(os[1..], o);
    }
  }

  // ---- Counting signals ----

  lemma {:induction false} NotifyAllCount(rs: seq<Run>, r: Run)
    ensures multiset(NotifyAll(rs))[Outcome(r, true)] == if r.notify then multiset(rs)[r] else 0
    ensures multiset(NotifyAll(rs))[Outcome(r, false)] == 0
  {
    if rs != [] {
      assert rs == [rs[0]] + rs[1..];
      NotifyAllCount(rs[1..], r);
    }
  }

  lemma {:induction false} SentCount(os: seq<Outcome>, o: Outcome)
    ensures multiset(Sent(os))[o] == if o.run.notify then multiset(os)[o] else 0
  {
    if os != [] {
      assert os == [os[0]] + os[1..];
      SentCount(os[1..], o);
    }
  }

  lemma RunsOfCons(os: seq<Outcome>, r: Run)
    requires os != []
    ensures r in RunsOf(os) <==> r == os[0].run || r in RunsOf(os[1..])
    ensures DistinctIDs(RunsOf(os)) ==> DistinctIDs(RunsOf(os[1..])) && os[0].run !in RunsOf(os[1..])
  {
    var rs := RunsOf(os);
    assert rs[1..] == RunsOf(os[1..]);
    assert rs == [rs[0]] + rs[1..];
  }

  lemma {:induction false} OutcomeCount(os: seq<Outcome>, r: Run)
    requires DistinctIDs(RunsOf(os))
    ensures multiset(os)[Outcome(r, true)] + multiset(os)[Outcome(r, false)] == if r in RunsOf(os) then 1 else 0
  {
    if os != [] {
      assert os == [os[0]] + os[1..];
      RunsOfCons(os, r);
      OutcomeCount(os[1..], r);
    }
  }

  lemma {:induction false} DistinctCount(s: seq<Run>, r: Run)
    requires DistinctIDs(s)
    ensures multiset(s)[r] == if r in s then 1 else 0
  {
    if s != [] {
      assert s == [s[0]] + s[1..];
      DistinctCount(s[1..], r);
    }
  }
}
