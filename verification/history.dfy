/** The history screen (components/history/history-content.tsx): local and
    remote observations are merged, sorted newest first and de-duplicated by
    id, preferring the remote copy. */
module History {
  import opened Wrappers
  import opened Model
  import Seqs

  // ---------------------------------------------------------------------------
  // Sorting: `[...local, ...remote].sort((a, b) => b.timestamp - a.timestamp)`.
  // `Array.prototype.sort` is stable, so the result is the unique sequence that
  // is ordered newest first and keeps the input order among equal timestamps.

  predicate SortedNewestFirst(s: seq<Entry>) {
    forall i, j :: 0 <= i < j < |s| ==> s[i].Timestamp() >= s[j].Timestamp()
  }

  /** Accepts the entries taken at instant `t`. */
  function AtTime(t: int): Entry -> bool {
    (e: Entry) => e.Timestamp() == t
  }

  /** Places `x` in front of the first entry that is not newer than it, so `x`
      precedes every entry of `r` with the same timestamp. */
  function Insert(x: Entry, r: seq<Entry>): (res: seq<Entry>)
    decreases |r|
  {
    if |r| == 0 || r[0].Timestamp() <= x.Timestamp() then [x] + r
    else [r[0]] + Insert(x, r[1..])
  }

  /** A newest-first list stays newest-first when an entry at least as new as
      all of it is put in front. */
  lemma ConsKeepsOrder(h: Entry, rest: seq<Entry>)
    requires SortedNewestFirst(rest)
    requires forall e :: e in rest ==> e.Timestamp() <= h.Timestamp()
    ensures SortedNewestFirst([h] + rest)
  {
    var s := [h] + rest;
    forall i, j | 0 <= i < j < |s|
      ensures s[i].Timestamp() >= s[j].Timestamp()
    {
      assert s[j] == rest[j - 1];
      if i > 0 {
        assert s[i] == rest[i - 1];
      } else {
        assert rest[j - 1] in rest;
      }
    }
  }

  lemma {:induction false} InsertAddsOne(x: Entry, r: seq<Entry>)
    ensures multiset(Insert(x, r)) == multiset(r) + multiset{x}
    decreases |r|
  {
    if |r| > 0 && r[0].Timestamp() > x.Timestamp() {
      InsertAddsOne(x, r[1..]);
      assert r == [r[0]] + r[1..];
    }
  }

  /** Every entry of a newest-first list is at most as new as its head. */
  lemma HeadIsNewest(r: seq<Entry>)
    requires SortedNewestFirst(r) && |r| > 0
    ensures SortedNewestFirst(r[1..])
    ensures forall e :: e in r ==> e.Timestamp() <= r[0].Timestamp()
  {
    forall i, j | 0 <= i < j < |r[1..]|
      ensures r[1..][i].Timestamp() >= r[1..][j].Timestamp()
    {
      assert r[1..][i] == r[i + 1] && r[1..][j] == r[j + 1];
    }
    forall e | e in r
      ensures e.Timestamp() <= r[0].Timestamp()
    {
      var k :| 0 <= k < |r| && r[k] == e;
      assert r[0].Timestamp() >= r[k].Timestamp();
    }
  }

  lemma {:induction false} InsertKeepsOrder(x: Entry, r: seq<Entry>)
    requires SortedNewestFirst(r)
    ensures SortedNewestFirst(Insert(x, r))
    ensures multiset(Insert(x, r)) == multiset(r) + multiset{x}
    decreases |r|
  {
    InsertAddsOne(x, r);
    if |r| == 0 {
      ConsKeepsOrder(x, r);
    } else if r[0].Timestamp() <= x.Timestamp() {
      HeadIsNewest(r);
      ConsKeepsOrder(x, r);
    } else {
      var rest := Insert(x, r[1..]);
      HeadIsNewest(r);
      InsertKeepsOrder(x, r[1..]);
      forall e | e in rest
        ensures e.Timestamp() <= r[0].Timestamp()
      {
        assert e in multiset(rest);
        assert e == x || e in r;
      }
      ConsKeepsOrder(r[0], rest);
    }
  }

  lemma {:induction false} InsertAtTime(x: Entry, r: seq<Entry>, t: int)
    ensures Seqs.Filter(Insert(x, r), AtTime(t))
            == (if x.Timestamp() == t then [x] else []) + Seqs.Filter(r, AtTime(t))
    decreases |r|
  {
    if |r| == 0 || r[0].Timestamp() <= x.Timestamp() {
      assert ([x] + r)[1..] == r;
    } else {
      var rest := Insert(x, r[1..]);
      InsertAtTime(x, r[1..], t);
      assert ([r[0]] + rest)[1..] == rest;
    }
  }

  /** Stable sort, newest first. */
  function SortNewestFirst(s: seq<Entry>): (r: seq<Entry>)
    ensures SortedNewestFirst(r)
    ensures multiset(r) == multiset(s)
    decreases |s|
  {
    if |s| == 0 then []
    else
      var rest := SortNewestFirst(s[1..]);
      InsertStep(s, rest);
      Insert(s[0], rest)
  }

  lemma InsertStep(s: seq<Entry>, rest: seq<Entry>)
    requires |s| > 0 && SortedNewestFirst(rest) && multiset(rest) == multiset(s[1..])
    ensures SortedNewestFirst(Insert(s[0], rest))
    ensures multiset(Insert(s[0], rest)) == multiset(s)
  {
    InsertKeepsOrder(s[0], rest);
    assert s == [s[0]] + s[1..];
  }

  /** The sort is stable: the entries taken at any one instant keep their
      input order. */
  lemma {:induction false} SortIsStable(s: seq<Entry>, t: int)
    ensures Seqs.Filter(SortNewestFirst(s), AtTime(t)) == Seqs.Filter(s, AtTime(t))
    decreases |s|
  {
    if |s| > 0 {
      SortIsStable(s[1..], t);
      InsertAtTime(s[0], SortNewestFirst(s[1..]), t);
    }
  }

  // ---------------------------------------------------------------------------
  // De-duplication: the `reduce` over the sorted list.

  /** `acc.find((item) => item.id === id)`. */
  function Find(acc: seq<Entry>, id: string): (r: Option<Entry>)
    ensures r.Some? <==> id in Ids(acc)
    ensures r.Some? ==> r.value in acc && r.value.Id() == id
  {
    if |acc| == 0 then None
    else if acc[0].Id() == id then Some(acc[0])
    else Find(acc[1..], id)
  }

  /** `acc.map((item) => (item.id === current.id ? current : item))`. */
  function ReplaceById(acc: seq<Entry>, current: Entry): (r: seq<Entry>)
    ensures |r| == |acc|
    ensures forall i :: 0 <= i < |acc| ==> r[i] == (if acc[i].Id() == current.Id() then current else acc[i])
  {
    seq(|acc|, i requires 0 <= i < |acc| => if acc[i].Id() == current.Id() then current else acc[i])
  }

  /** One step of the reducer. */
  function DedupeStep(acc: seq<Entry>, current: Entry): seq<Entry> {
    match Find(acc, current.Id())
    case None => acc + [current]
    case Some(x) =>
      if current.source == Remote && x.source == Local then ReplaceById(acc, current) else acc
  }

  /** `allObservations.reduce(DedupeStep, [])`. */
  function Dedupe(s: seq<Entry>): seq<Entry>
    decreases |s|
  {
    if |s| == 0 then [] else DedupeStep(Dedupe(s[..|s| - 1]), s[|s| - 1])
  }

  // ---------------------------------------------------------------------------
  // Reference definition of what the reducer keeps, written front to back.

  /** The first remote entry with this id. */
  function FirstRemote(s: seq<Entry>, id: string): Option<Entry> {
    if |s| == 0 then None
    else if s[0].Id() == id && s[0].source == Remote then Some(s[0])
    else FirstRemote(s[1..], id)
  }

  /** The first entry with this id. */
  function FirstWithId(s: seq<Entry>, id: string): Option<Entry> {
    if |s| == 0 then None
    else if s[0].Id() == id then Some(s[0])
    else FirstWithId(s[1..], id)
  }

  /** The entry the history should show for `id`: the first remote one if any,
      otherwise the first one. */
  function Preferred(s: seq<Entry>, id: string): Option<Entry> {
    if FirstRemote(s, id).Some? then FirstRemote(s, id) else FirstWithId(s, id)
  }

  function NotEqual(id: string): string -> bool {
    (x: string) => x != id
  }

  /** Every id of `s` once, in order of first occurrence. */
  function FirstIds(s: seq<Entry>): seq<string>
    decreases |s|
  {
    if |s| == 0 then [] else [s[0].Id()] + Seqs.Filter(FirstIds(s[1..]), NotEqual(s[0].Id()))
  }

  lemma {:induction false} FirstWithIdFound(s: seq<Entry>, id: string)
    ensures FirstWithId(s, id).Some? <==> id in Ids(s)
    ensures FirstWithId(s, id).Some? ==> FirstWithId(s, id).value.Id() == id && FirstWithId(s, id).value in s
    decreases |s|
  {
    if |s| > 0 {
      FirstWithIdFound(s[1..], id);
      assert Ids(s) == [s[0].Id()] + Ids(s[1..]);
    }
  }

  lemma {:induction false} FirstRemoteFound(s: seq<Entry>, id: string)
    ensures FirstRemote(s, id).Some? ==>
              FirstRemote(s, id).value in s && FirstRemote(s, id).value.Id() == id
              && FirstRemote(s, id).value.source == Remote
    ensures FirstWithId(s, id).Some? && FirstWithId(s, id).value.source == Remote ==> FirstRemote(s, id).Some?
    decreases |s|
  {
    if |s| > 0 {
      FirstRemoteFound(s[1..], id);
    }
  }

  lemma FirstWithIdPresent(s: seq<Entry>, id: string)
    ensures FirstWithId(s, id).Some? <==> id in Ids(s)
    ensures FirstWithId(s, id).Some? ==> FirstWithId(s, id).value.Id() == id
    ensures FirstRemote(s, id).Some? ==> id in Ids(s) && FirstRemote(s, id).value.Id() == id
    ensures FirstRemote(s, id).Some? ==> FirstRemote(s, id).value.source == Remote
    ensures FirstWithId(s, id).Some? && FirstWithId(s, id).value.source == Remote ==> FirstRemote(s, id).Some?
    ensures Preferred(s, id).Some? ==> Preferred(s, id).value in s
  {
    FirstWithIdFound(s, id);
    FirstRemoteFound(s, id);
    if FirstRemote(s, id).Some? {
      var k :| 0 <= k < |s| && s[k] == FirstRemote(s, id).value;
      assert Ids(s)[k] == id;
    }
  }

  lemma {:induction false} FirstRemoteAppend(p: seq<Entry>, x: Entry, id: string)
    ensures FirstRemote(p + [x], id)
            == if FirstRemote(p, id).Some? then FirstRemote(p, id)
               else if x.Id() == id && x.source == Remote then Some(x) else None
    ensures FirstWithId(p + [x], id)
            == if FirstWithId(p, id).Some? then FirstWithId(p, id)
               else if x.Id() == id then Some(x) else None
    decreases |p|
  {
    if |p| > 0 {
      assert (p + [x])[1..] == p[1..] + [x];
      FirstRemoteAppend(p[1..], x, id);
    } else {
      assert p + [x] == [x];
    }
  }

  lemma {:induction false} FirstIdsSameIds(p: seq<Entry>)
    ensures forall id :: id in FirstIds(p) <==> id in Ids(p)
    decreases |p|
  {
    if |p| > 0 {
      FirstIdsSameIds(p[1..]);
      Seqs.FilterCharacterization(FirstIds(p[1..]), NotEqual(p[0].Id()));
      assert Ids(p) == [p[0].Id()] + Ids(p[1..]);
    }
  }

  lemma FilterOne(y: string, h: string)
    ensures Seqs.Filter([y], NotEqual(h)) == if y != h then [y] else []
  {
    assert [y][1..] == [];
  }

  lemma {:induction false} FirstIdsAppend(p: seq<Entry>, x: Entry)
    ensures FirstIds(p + [x]) == FirstIds(p) + (if x.Id() in Ids(p) then [] else [x.Id()])
    decreases |p|
  {
    if |p| == 0 {
      assert p + [x] == [x];
      assert [x][1..] == [];
    } else {
      var h := p[0].Id();
      var q := p[1..];
      var tail := if x.Id() in Ids(q) then [] else [x.Id()];
      assert (p + [x])[0] == p[0];
      assert (p + [x])[1..] == q + [x];
      assert Ids(p) == [h] + Ids(q);
      assert Seqs.Filter(tail, NotEqual(h)) == (if x.Id() in Ids(p) then [] else [x.Id()]) by {
        FilterOne(x.Id(), h);
        assert x.Id() in Ids(p) <==> x.Id() == h || x.Id() in Ids(q);
      }
      calc {
        FirstIds(p + [x]);
        [h] + Seqs.Filter(FirstIds(q + [x]), NotEqual(h));
        { FirstIdsAppend(q, x); }
        [h] + Seqs.Filter(FirstIds(q) + tail, NotEqual(h));
        { Seqs.FilterConcat(FirstIds(q), tail, NotEqual(h)); }
        [h] + (Seqs.Filter(FirstIds(q), NotEqual(h)) + Seqs.Filter(tail, NotEqual(h)));
        FirstIds(p) + Seqs.Filter(tail, NotEqual(h));
      }
    }
  }

  /** What the reducer keeps after each step: ids unique and in order of first
      occurrence, and for every id the preferred entry. */
  ghost predicate DedupeInvariant(s: seq<Entry>, acc: seq<Entry>) {
    && UniqueIds(acc)
    && Ids(acc) == FirstIds(s)
    && (forall k :: 0 <= k < |acc| ==> Preferred(s, acc[k].Id()) == Some(acc[k]))
  }

  lemma PreferredOtherIdUnchanged(p: seq<Entry>, x: Entry, id: string)
    requires id != x.Id()
    ensures Preferred(p + [x], id) == Preferred(p, id)
  {
    FirstRemoteAppend(p, x, id);
  }

  /** A new id is appended and is its own preferred entry. */
  lemma StepAppends(p: seq<Entry>, acc: seq<Entry>, x: Entry)
    requires DedupeInvariant(p, acc)
    requires x.Id() !in Ids(p)
    ensures DedupeInvariant(p + [x], acc + [x])
  {
    var next := acc + [x];
    FirstIdsAppend(p, x);
    FirstIdsSameIds(p);
    assert Ids(next) == Ids(acc) + [x.Id()];
    forall k | 0 <= k < |acc|
      ensures Preferred(p + [x], next[k].Id()) == Some(next[k])
    {
      assert Ids(acc)[k] == acc[k].Id();
      PreferredOtherIdUnchanged(p, x, acc[k].Id());
    }
    FirstRemoteAppend(p, x, x.Id());
    FirstWithIdPresent(p, x.Id());
  }

  /** A remote entry replaces the local entry kept for its id. */
  lemma StepReplaces(p: seq<Entry>, acc: seq<Entry>, x: Entry, k: nat)
    requires DedupeInvariant(p, acc)
    requires k < |acc| && acc[k].Id() == x.Id()
    requires x.source == Remote && acc[k].source == Local
    ensures DedupeInvariant(p + [x], ReplaceById(acc, x))
  {
    var next := ReplaceById(acc, x);
    FirstIdsAppend(p, x);
    FirstIdsSameIds(p);
    assert Ids(acc)[k] == x.Id();
    assert Ids(next) == Ids(acc);
    FirstWithIdPresent(p, x.Id());
    assert FirstRemote(p, x.Id()).None?;
    FirstRemoteAppend(p, x, x.Id());
    forall j | 0 <= j < |acc|
      ensures Preferred(p + [x], next[j].Id()) == Some(next[j])
    {
      if acc[j].Id() != x.Id() {
        PreferredOtherIdUnchanged(p, x, acc[j].Id());
      }
    }
  }

  /** Any other duplicate is dropped and the kept entry stays preferred. */
  lemma StepKeeps(p: seq<Entry>, acc: seq<Entry>, x: Entry, k: nat)
    requires DedupeInvariant(p, acc)
    requires k < |acc| && acc[k].Id() == x.Id()
    requires !(x.source == Remote && acc[k].source == Local)
    ensures DedupeInvariant(p + [x], acc)
  {
    FirstIdsAppend(p, x);
    FirstIdsSameIds(p);
    assert Ids(acc)[k] == x.Id();
    FirstWithIdPresent(p, x.Id());
    FirstRemoteAppend(p, x, x.Id());
    forall j | 0 <= j < |acc|
      ensures Preferred(p + [x], acc[j].Id()) == Some(acc[j])
    {
      if acc[j].Id() != x.Id() {
        PreferredOtherIdUnchanged(p, x, acc[j].Id());
      } else {
        assert j == k;
      }
    }
  }

  lemma StepKeepsInvariant(p: seq<Entry>, acc: seq<Entry>, x: Entry)
    requires DedupeInvariant(p, acc)
    ensures DedupeInvariant(p + [x], DedupeStep(acc, x))
  {
    FirstIdsSameIds(p);
    match Find(acc, x.Id())
    case None =>
      StepAppends(p, acc, x);
    case Some(y) =>
      var k :| 0 <= k < |acc| && acc[k] == y;
      if x.source == Remote && y.source == Local {
        StepReplaces(p, acc, x, k);
      } else {
        StepKeeps(p, acc, x, k);
      }
  }

  lemma {:induction false} DedupeMatchesReference(s: seq<Entry>)
    ensures DedupeInvariant(s, Dedupe(s))
    decreases |s|
  {
    if |s| > 0 {
      var p, x := s[..|s| - 1], s[|s| - 1];
      DedupeMatchesReference(p);
      StepKeepsInvariant(p, Dedupe(p), x);
      assert s == p + [x];
      assert Dedupe(s) == DedupeStep(Dedupe(p), x);
    }
  }

  /** The reducer keeps exactly one entry per id, lists the ids in order of
      first occurrence, and keeps for each id the first remote entry if there
      is one and the first entry otherwise. */
  lemma DedupeCharacterization(s: seq<Entry>)
    ensures UniqueIds(Dedupe(s))
    ensures Ids(Dedupe(s)) == FirstIds(s)
    ensures forall id :: id in Ids(Dedupe(s)) <==> id in Ids(s)
    ensures forall e :: e in Dedupe(s) ==> Preferred(s, e.Id()) == Some(e) && e in s
  {
    DedupeMatchesReference(s);
    FirstIdsSameIds(s);
    forall e | e in Dedupe(s)
      ensures e in s
    {
      FirstWithIdPresent(s, e.Id());
    }
  }

  // ---------------------------------------------------------------------------
  // loadObservations

  /** The remote list the screen uses: none when offline or when the fetch threw. */
  function RemoteEntries(online: bool, fetched: Result<seq<Observation>>): seq<Entry> {
    if online && fetched.Success? then Tag(fetched.value, Remote) else []
  }

  /** The combined list before de-duplication. */
  function Combined(local: seq<Observation>, online: bool, fetched: Result<seq<Observation>>): seq<Entry> {
    SortNewestFirst(Tag(local, Local) + RemoteEntries(online, fetched))
  }

  lemma TagMembers(s: seq<Observation>, source: Source)
    ensures forall e :: e in Tag(s, source) <==> e.source == source && e.obs in s
  {
    forall e: Entry | e.source == source && e.obs in s
      ensures e in Tag(s, source)
    {
      var i :| 0 <= i < |s| && s[i] == e.obs;
      assert Tag(s, source)[i] == e;
    }
  }

  /** Sorting neither adds nor loses entries. */
  lemma CombinedMembers(local: seq<Observation>, online: bool, fetched: Result<seq<Observation>>)
    ensures forall e :: e in Combined(local, online, fetched) <==>
      (e.source == Local && e.obs in local)
      || (e.source == Remote && online && fetched.Success? && e.obs in fetched.value)
  {
    var tagged := Tag(local, Local) + RemoteEntries(online, fetched);
    var all := Combined(local, online, fetched);
    assert multiset(all) == multiset(tagged);
    assert forall e :: e in all <==> e in multiset(all);
    assert forall e :: e in tagged <==> e in multiset(tagged);
    TagMembers(local, Local);
    if online && fetched.Success? {
      TagMembers(fetched.value, Remote);
    }
  }

  /** The observations the history shows after `loadObservations`. The remote
      fetch is a parameter: its result, or the message it threw. */
  function LoadHistory(local: seq<Observation>, online: bool, fetched: Result<seq<Observation>>)
    : (r: seq<Entry>)
    ensures UniqueIds(r)
    ensures Ids(r) == FirstIds(Combined(local, online, fetched))
    ensures forall e :: e in r ==> Preferred(Combined(local, online, fetched), e.Id()) == Some(e)
    ensures forall e :: e in r && e.source == Local ==> e.obs in local
    ensures forall e :: e in r && e.source == Remote ==> online && fetched.Success? && e.obs in fetched.value
  {
    var all := Combined(local, online, fetched);
    DedupeCharacterization(all);
    CombinedMembers(local, online, fetched);
    Dedupe(all)
  }

  /** Offline, or when the fetch throws, only local observations are shown. */
  lemma OfflineShowsOnlyLocal(local: seq<Observation>, online: bool, fetched: Result<seq<Observation>>)
    requires !online || fetched.Failure?
    ensures forall e :: e in LoadHistory(local, online, fetched) ==> e.source == Local && e.obs in local
  {
  }

  /** Whatever the network does, every stored observation's id is shown. */
  lemma EveryStoredIdShown(local: seq<Observation>, online: bool, fetched: Result<seq<Observation>>)
    ensures forall o :: o in local ==> o.id in Ids(LoadHistory(local, online, fetched))
  {
    var all := Combined(local, online, fetched);
    DedupeCharacterization(all);
    CombinedMembers(local, online, fetched);
    forall o | o in local
      ensures o.id in Ids(Dedupe(all))
    {
      var j :| 0 <= j < |all| && all[j] == Entry(o, Local);
      assert Ids(all)[j] == o.id;
    }
  }

  /** Every id, local or remote, is shown, and an id that exists remotely is
      shown with a remote copy. */
  lemma HistoryKeepsEveryIdPreferringRemote(local: seq<Observation>, fetched: seq<Observation>)
    ensures forall o :: o in local ==> o.id in Ids(LoadHistory(local, true, Success(fetched)))
    ensures forall o :: o in fetched ==> o.id in Ids(LoadHistory(local, true, Success(fetched)))
    ensures forall e, o :: e in LoadHistory(local, true, Success(fetched)) && o in fetched && o.id == e.Id()
                           ==> e.source == Remote
  {
    var all := Combined(local, true, Success(fetched));
    DedupeCharacterization(all);
    CombinedMembers(local, true, Success(fetched));
    forall o | o in local || o in fetched
      ensures o.id in Ids(Dedupe(all))
    {
      var e := if o in fetched then Entry(o, Remote) else Entry(o, Local);
      var j :| 0 <= j < |all| && all[j] == e;
      assert Ids(all)[j] == o.id;
    }
    forall e, o | e in Dedupe(all) && o in fetched && o.id == e.Id()
      ensures e.source == Remote
    {
      RemoteIsFound(all, Entry(o, Remote));
      FirstWithIdPresent(all, e.Id());
    }
  }

  /** Replacing a local entry by an older remote copy keeps the local entry's
      place, so the history is not always newest first. */
  lemma SortExample(x: Entry, y: Entry, z: Entry)
    requires x.Timestamp() > y.Timestamp() > z.Timestamp()
    ensures SortNewestFirst([x, y, z]) == [x, y, z]
  {
    assert [x, y, z][1..] == [y, z];
    assert [y, z][1..] == [z];
    assert SortNewestFirst([z]) == [z];
    assert SortNewestFirst([y, z]) == [y, z];
  }

  lemma DedupeExample(x: Entry, y: Entry, z: Entry)
    requires x.Id() == z.Id() != y.Id()
    requires x.source == Local && z.source == Remote
    ensures Dedupe([x, y, z]) == [z, y]
  {
    assert [x, y, z][..2] == [x, y];
    assert [x, y][..1] == [x];
    assert Dedupe([x]) == [x];
    assert Dedupe([x, y]) == [x, y];
  }

  lemma OlderFirstNotSorted(x: Entry, y: Entry)
    requires x.Timestamp() < y.Timestamp()
    ensures !SortedNewestFirst([x, y])
  {
    assert [x, y][0] == x && [x, y][1] == y;
  }

  lemma CombinedExample(a: Observation, b: Observation, a': Observation)
    requires a.timestamp > b.timestamp > a'.timestamp
    ensures Combined([a, b], true, Success([a'])) == [Entry(a, Local), Entry(b, Local), Entry(a', Remote)]
  {
    var ea, eb, ea' := Entry(a, Local), Entry(b, Local), Entry(a', Remote);
    assert Tag([a, b], Local) + Tag([a'], Remote) == [ea, eb, ea'];
    SortExample(ea, eb, ea');
  }

  /** A remote copy replaces its local twin in place, so the shown list is not
      always newest first: the replaced entry keeps the local copy's slot. */
  lemma HistoryNotAlwaysNewestFirst(a: Observation, b: Observation, a': Observation)
    requires a.id == a'.id != b.id
    requires a.timestamp > b.timestamp > a'.timestamp
    ensures LoadHistory([a, b], true, Success([a'])) == [Entry(a', Remote), Entry(b, Local)]
    ensures !SortedNewestFirst(LoadHistory([a, b], true, Success([a'])))
  {
    CombinedExample(a, b, a');
    DedupeExample(Entry(a, Local), Entry(b, Local), Entry(a', Remote));
    OlderFirstNotSorted(Entry(a', Remote), Entry(b, Local));
  }

  /** An entry at least as new as every other entry stays in front after sorting. */
  lemma NewestHeadStaysFirst(s: seq<Entry>)
    requires |s| > 0
    requires forall i :: 0 <= i < |s| ==> s[i].Timestamp() <= s[0].Timestamp()
    ensures SortNewestFirst(s)[0] == s[0]
  {
    var rest := SortNewestFirst(s[1..]);
    assert SortNewestFirst(s) == Insert(s[0], rest);
    if |rest| > 0 {
      assert rest[0] in multiset(s[1..]);
      var j :| 0 <= j < |s[1..]| && s[1..][j] == rest[0];
      assert s[j + 1] == rest[0];
      assert rest[0].Timestamp() <= s[0].Timestamp();
    }
    assert Insert(s[0], rest) == [s[0]] + rest;
  }

  lemma {:induction false} NoRemoteEntry(s: seq<Entry>, id: string)
    requires forall i :: 0 <= i < |s| ==> s[i].source == Local
    ensures FirstRemote(s, id) == None
    decreases |s|
  {
    if |s| > 0 {
      NoRemoteEntry(s[1..], id);
    }
  }

  /** Without remote entries, de-duplication keeps the first entry in front. */
  lemma LocalHeadKeptFirst(s: seq<Entry>)
    requires |s| > 0
    requires forall i :: 0 <= i < |s| ==> s[i].source == Local
    ensures |Dedupe(s)| > 0 && Dedupe(s)[0] == s[0]
  {
    DedupeCharacterization(s);
    NoRemoteEntry(s, s[0].Id());
    assert FirstIds(s)[0] == s[0].Id();
    assert |Ids(Dedupe(s))| > 0;
    var d := Dedupe(s)[0];
    assert d in Dedupe(s);
    assert Ids(Dedupe(s))[0] == d.Id();
  }

  /** Offline, an observation stored first that is at least as new as every
      other stored one heads the history. */
  lemma OfflineNewestShownFirst(local: seq<Observation>, fetched: Result<seq<Observation>>)
    requires |local| > 0
    requires forall i :: 0 <= i < |local| ==> local[i].timestamp <= local[0].timestamp
    ensures |LoadHistory(local, false, fetched)| > 0
    ensures LoadHistory(local, false, fetched)[0] == Entry(local[0], Local)
  {
    var tagged := Tag(local, Local);
    assert tagged + RemoteEntries(false, fetched) == tagged;
    NewestHeadStaysFirst(tagged);
    var sorted := SortNewestFirst(tagged);
    forall i | 0 <= i < |sorted|
      ensures sorted[i].source == Local
    {
      assert sorted[i] in multiset(tagged);
    }
    LocalHeadKeptFirst(sorted);
  }

  lemma {:induction false} RemoteIsFound(s: seq<Entry>, x: Entry)
    requires x in s && x.source == Remote
    ensures FirstRemote(s, x.Id()).Some?
    decreases |s|
  {
    if s[0] != x {
      RemoteIsFound(s[1..], x);
    }
  }

  // ---------------------------------------------------------------------------
  // Accuracy badge

  const AccuracyLabels: seq<string> := ["Very accurate", "Accurate", "Moderate", "Low accuracy"]

  /** Index into `AccuracyLabels` of the label for `accuracy` metres. */
  function AccuracyLevel(accuracy: real): (level: nat)
    ensures level < |AccuracyLabels|
  {
    if accuracy < 10.0 then 0
    else if accuracy < 50.0 then 1
    else if accuracy < 100.0 then 2
    else 3
  }

  /** `getLocationAccuracy`. */
  function GetLocationAccuracy(accuracy: real): (text: string)
    ensures text == "Very accurate" <==> accuracy < 10.0
    ensures text == "Accurate" <==> 10.0 <= accuracy < 50.0
    ensures text == "Moderate" <==> 50.0 <= accuracy < 100.0
    ensures text == "Low accuracy" <==> accuracy >= 100.0
  {
    AccuracyLabels[AccuracyLevel(accuracy)]
  }

  /** Worse accuracy never gets a better label. */
  lemma AccuracyLabelMonotone(a: real, b: real)
    requires a <= b
    ensures AccuracyLevel(a) <= AccuracyLevel(b)
    ensures GetLocationAccuracy(b) == "Very accurate" ==> GetLocationAccuracy(a) == "Very accurate"
    ensures GetLocationAccuracy(a) == "Moderate" ==> GetLocationAccuracy(b) in ["Moderate", "Low accuracy"]
    ensures GetLocationAccuracy(a) == "Low accuracy" ==> GetLocationAccuracy(b) == "Low accuracy"
  {
  }

  /** What `{observation.geolocation.accuracy && <Badge>…}` renders. An accuracy
      of 0 is falsy, so the expression is the number 0, which React renders as
      the text "0"; any other accuracy renders the badge with its label. */
  datatype BadgeView = StrayZero | Badge(caption: string) {
    /** The text the reader sees. */
    function Text(): string {
      match this
      case StrayZero => "0"
      case Badge(caption) => caption
    }
  }

  function AccuracyBadge(accuracy: real): (view: BadgeView)
    ensures view.StrayZero? <==> accuracy == 0.0
    ensures view.Badge? ==> view.caption == GetLocationAccuracy(accuracy)
    ensures view.Text() == if accuracy == 0.0 then "0" else GetLocationAccuracy(accuracy)
  {
    if accuracy != 0.0 then Badge(GetLocationAccuracy(accuracy)) else StrayZero
  }

  /** An accuracy of exactly 0 shows a stray "0" where a sub-10-metre accuracy
      would say "Very accurate". */
  lemma ZeroAccuracyShowsZero(small: real)
    requires 0.0 < small < 10.0
    ensures AccuracyBadge(0.0).Text() == "0"
    ensures AccuracyBadge(small).Text() == "Very accurate"
  {
  }
}
