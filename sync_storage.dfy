/**
  Local-first session storage with optional cloud sync. The local store is
  keyed by session id; when sync is active, listing merges the cloud's
  sessions in, the most recently modified record winning for each id.
 */
module SyncStorage {
  import opened Optional

  datatype SessionMode = Dating | Politics | Lab

  datatype SessionData = SessionData(
    id: string,
    timestamp: int,
    mode: SessionMode,
    content: string,
    tags: Option<seq<string>>,
    lastModified: int,
    audioTranscript: Option<string>)

  function Ids(xs: seq<SessionData>): set<string>
  {
    set s | s in xs :: s.id
  }

  predicate UniqueIds(xs: seq<SessionData>)
  {
    forall i, j :: 0 <= i < j < |xs| ==> xs[i].id != xs[j].id
  }

  /** The record stored under `id`, if any. */
  function Find(xs: seq<SessionData>, id: string): (r: Option<SessionData>)
    ensures r.Some? <==> id in Ids(xs)
    ensures r.Some? ==> r.value in xs && r.value.id == id
    decreases |xs|
  {
    if xs == [] then None
    else if xs[0].id == id then Some(xs[0])
    else
      assert xs == [xs[0]] + xs[1..];
      Find(xs[1..], id)
  }

  /**
    `Map.set` / `put` by key: the record replaces the one with its id in
    place, or is appended when the id is new.
   */
  function Put(xs: seq<SessionData>, s: SessionData): seq<SessionData>
    decreases |xs|
  {
    if xs == [] then [s]
    else if xs[0].id == s.id then [s] + xs[1..]
    else [xs[0]] + Put(xs[1..], s)
  }

  /** `delete` by key. */
  function Remove(xs: seq<SessionData>, id: string): seq<SessionData>
    decreases |xs|
  {
    if xs == [] then []
    else if xs[0].id == id then Remove(xs[1..], id)
    else [xs[0]] + Remove(xs[1..], id)
  }

  lemma IdsCons(x: SessionData, xs: seq<SessionData>)
    ensures Ids([x] + xs) == {x.id} + Ids(xs)
  {
    assert forall s :: s in [x] + xs <==> s == x || s in xs;
  }

  lemma IdsSnoc(xs: seq<SessionData>, x: SessionData)
    ensures Ids(xs + [x]) == Ids(xs) + {x.id}
  {
    assert forall s :: s in xs + [x] <==> s == x || s in xs;
  }

  lemma UniqueIdsCons(x: SessionData, xs: seq<SessionData>)
    ensures UniqueIds([x] + xs) <==> x.id !in Ids(xs) && UniqueIds(xs)
  {
    var r := [x] + xs;
    if UniqueIds(r) {
      forall y | y in xs ensures y.id != x.id {
        var i :| 0 <= i < |xs| && xs[i] == y;
        assert r[i + 1] == y && r[0] == x;
      }
      forall i, j | 0 <= i < j < |xs| ensures xs[i].id != xs[j].id {
        assert r[i + 1] == xs[i] && r[j + 1] == xs[j];
      }
    }
    if x.id !in Ids(xs) && UniqueIds(xs) {
      forall i, j | 0 <= i < j < |r| ensures r[i].id != r[j].id {
        if i == 0 {
          assert r[j] == xs[j - 1] && xs[j - 1] in xs && r[0] == x;
        } else {
          assert r[i] == xs[i - 1] && r[j] == xs[j - 1];
        }
      }
    }
  }

  /**
    Put stores the record under its id and leaves every other id's record
    alone; the ids gain only the record's id, and stay unique.
   */
  lemma PutFacts(xs: seq<SessionData>, s: SessionData)
    ensures Ids(Put(xs, s)) == Ids(xs) + {s.id}
    ensures Find(Put(xs, s), s.id) == Some(s)
    ensures forall id :: id != s.id ==> Find(Put(xs, s), id) == Find(xs, id)
    ensures UniqueIds(xs) ==> UniqueIds(Put(xs, s))
  {
    PutIds(xs, s);
    PutFind(xs, s);
    if UniqueIds(xs) {
      PutUnique(xs, s);
    }
  }

  lemma {:induction false} PutIds(xs: seq<SessionData>, s: SessionData)
    ensures Ids(Put(xs, s)) == Ids(xs) + {s.id}
    decreases |xs|
  {
    if xs != [] {
      IdsCons(xs[0], xs[1..]);
      assert xs == [xs[0]] + xs[1..];
      if xs[0].id == s.id {
        IdsCons(s, xs[1..]);
      } else {
        PutIds(xs[1..], s);
        IdsCons(xs[0], Put(xs[1..], s));
      }
    }
  }

  lemma {:induction false} PutFind(xs: seq<SessionData>, s: SessionData)
    ensures Find(Put(xs, s), s.id) == Some(s)
    ensures forall id :: id != s.id ==> Find(Put(xs, s), id) == Find(xs, id)
    decreases |xs|
  {
    if xs != [] && xs[0].id != s.id {
      PutFind(xs[1..], s);
      assert Put(xs, s)[1..] == Put(xs[1..], s);
    }
  }

  lemma {:induction false} PutUnique(xs: seq<SessionData>, s: SessionData)
    requires UniqueIds(xs)
    ensures UniqueIds(Put(xs, s))
    decreases |xs|
  {
    if xs != [] {
      assert xs == [xs[0]] + xs[1..];
      UniqueIdsCons(xs[0], xs[1..]);
      if xs[0].id == s.id {
        UniqueIdsCons(s, xs[1..]);
      } else {
        PutUnique(xs[1..], s);
        PutIds(xs[1..], s);
        UniqueIdsCons(xs[0], Put(xs[1..], s));
      }
    }
  }

  /** Remove drops exactly the id and leaves every other id's record alone. */
  lemma {:induction false} RemoveFacts(xs: seq<SessionData>, id: string)
    ensures Ids(Remove(xs, id)) == Ids(xs) - {id}
    ensures forall k :: k != id ==> Find(Remove(xs, id), k) == Find(xs, k)
    ensures UniqueIds(xs) ==> UniqueIds(Remove(xs, id))
    decreases |xs|
  {
    if xs != [] {
      RemoveFacts(xs[1..], id);
      IdsCons(xs[0], xs[1..]);
      assert xs == [xs[0]] + xs[1..];
      UniqueIdsCons(xs[0], xs[1..]);
      if xs[0].id != id {
        IdsCons(xs[0], Remove(xs[1..], id));
        UniqueIdsCons(xs[0], Remove(xs[1..], id));
        assert Remove(xs, id)[1..] == Remove(xs[1..], id);
      }
    }
  }

  // ---------------------------------------------------------------------
  // The merge of getAllSessions
  // ---------------------------------------------------------------------

  /** Loading the local list into the merge map, one `set` per record. */
  function LoadAll(xs: seq<SessionData>): seq<SessionData>
    decreases |xs|
  {
    if xs == [] then [] else Put(LoadAll(xs[..|xs| - 1]), xs[|xs| - 1])
  }

  /** A cloud record replaces the merged one only when strictly more recent. */
  function CloudStep(m: seq<SessionData>, s: SessionData): seq<SessionData>
  {
    var existing := Find(m, s.id);
    if existing.None? || s.lastModified > existing.value.lastModified then Put(m, s) else m
  }

  function FoldCloud(m: seq<SessionData>, cloud: seq<SessionData>): seq<SessionData>
    decreases |cloud|
  {
    if cloud == [] then m else CloudStep(FoldCloud(m, cloud[..|cloud| - 1]), cloud[|cloud| - 1])
  }

  function MergeOf(local: seq<SessionData>, cloud: seq<SessionData>): seq<SessionData>
  {
    FoldCloud(LoadAll(local), cloud)
  }

  /** The merge in getAllSessions: the two `forEach` loops over the map. */
  method MergeSessions(local: seq<SessionData>, cloud: seq<SessionData>) returns (merged: seq<SessionData>)
    ensures merged == MergeOf(local, cloud)
  {
    merged := [];
    for i := 0 to |local|
      invariant merged == LoadAll(local[..i])
    {
      assert local[..i + 1][..i] == local[..i];
      merged := Put(merged, local[i]);
    }
    assert local[..|local|] == local;
    for i := 0 to |cloud|
      invariant merged == FoldCloud(LoadAll(local), cloud[..i])
    {
      assert cloud[..i + 1][..i] == cloud[..i];
      var existing := Find(merged, cloud[i].id);
      if existing.None? || cloud[i].lastModified > existing.value.lastModified {
        merged := Put(merged, cloud[i]);
      }
    }
    assert cloud[..|cloud|] == cloud;
  }

  /** A local list with unique ids loads as itself. */
  lemma {:induction false} LoadAllUnique(xs: seq<SessionData>)
    requires UniqueIds(xs)
    ensures LoadAll(xs) == xs
    decreases |xs|
  {
    if xs != [] {
      var n := |xs| - 1;
      var p := xs[..n];
      assert UniqueIds(p);
      LoadAllUnique(p);
      assert xs[n].id !in Ids(p);
      PutAppends(p, xs[n]);
      assert p + [xs[n]] == xs;
    }
  }

  lemma {:induction false} PutAppends(xs: seq<SessionData>, s: SessionData)
    requires s.id !in Ids(xs)
    ensures Put(xs, s) == xs + [s]
    decreases |xs|
  {
    if xs != [] {
      IdsCons(xs[0], xs[1..]);
      assert xs == [xs[0]] + xs[1..];
      PutAppends(xs[1..], s);
    }
  }

  /** The merged ids are the local ids and the cloud ids. */
  lemma {:induction false} FoldCloudIds(m: seq<SessionData>, cloud: seq<SessionData>)
    ensures Ids(FoldCloud(m, cloud)) == Ids(m) + Ids(cloud)
    decreases |cloud|
  {
    if cloud != [] {
      var n := |cloud| - 1;
      FoldCloudIds(m, cloud[..n]);
      PutIds(FoldCloud(m, cloud[..n]), cloud[n]);
      IdsSnoc(cloud[..n], cloud[n]);
      assert cloud == cloud[..n] + [cloud[n]];
    }
  }

  /** Each merged id appears once. */
  lemma {:induction false} FoldCloudUnique(m: seq<SessionData>, cloud: seq<SessionData>)
    requires UniqueIds(m)
    ensures UniqueIds(FoldCloud(m, cloud))
    decreases |cloud|
  {
    if cloud != [] {
      var n := |cloud| - 1;
      FoldCloudUnique(m, cloud[..n]);
      PutUnique(FoldCloud(m, cloud[..n]), cloud[n]);
    }
  }

  /**
    The invariant of the cloud loop for one id: the merged record is the
    starting record or one of the cloud records for that id, it is at least
    as recent as each of them, and it is still the starting record when no
    cloud record for the id was strictly more recent.
   */
  predicate Winner(m0: seq<SessionData>, cloud: seq<SessionData>, id: string, r: Option<SessionData>)
  {
    var start := Find(m0, id);
    (r.Some? <==> id in Ids(m0) || id in Ids(cloud))
    && (r.Some? ==>
      (r == start || r.value in cloud)
      && (start.Some? ==> start.value.lastModified <= r.value.lastModified)
      && (forall c :: c in cloud && c.id == id ==> c.lastModified <= r.value.lastModified)
      && ((start.Some? && forall c :: c in cloud && c.id == id ==> c.lastModified <= start.value.lastModified)
          ==> r == start))
  }

  lemma WinnerStep(m0: seq<SessionData>, p: seq<SessionData>, m: seq<SessionData>, s: SessionData, id: string)
    requires Winner(m0, p, id, Find(m, id))
    ensures Winner(m0, p + [s], id, Find(CloudStep(m, s), id))
  {
    PutFacts(m, s);
    var e := Find(m, id);
    if s.id != id {
      assert Find(CloudStep(m, s), id) == e;
      WinnerOtherId(m0, p, s, id, e);
    } else if e.None? || s.lastModified > e.value.lastModified {
      assert Find(CloudStep(m, s), id) == Some(s);
      WinnerTaken(m0, p, s, id, e);
    } else {
      assert Find(CloudStep(m, s), id) == e;
      WinnerKept(m0, p, s, id, e);
    }
  }

  /** A cloud record for another id leaves the winner alone. */
  lemma WinnerOtherId(m0: seq<SessionData>, p: seq<SessionData>, s: SessionData, id: string, r: Option<SessionData>)
    requires s.id != id && Winner(m0, p, id, r)
    ensures Winner(m0, p + [s], id, r)
  {
    IdsSnoc(p, s);
    assert forall c :: c in p + [s] <==> c == s || c in p;
  }

  /** A strictly more recent cloud record for the id (or the first one) becomes the winner. */
  lemma WinnerTaken(m0: seq<SessionData>, p: seq<SessionData>, s: SessionData, id: string, r: Option<SessionData>)
    requires s.id == id && Winner(m0, p, id, r)
    requires r.None? || s.lastModified > r.value.lastModified
    ensures Winner(m0, p + [s], id, Some(s))
  {
    IdsSnoc(p, s);
    assert forall c :: c in p + [s] <==> c == s || c in p;
    assert s in p + [s];
  }

  /** A cloud record for the id that is not strictly more recent keeps the winner. */
  lemma WinnerKept(m0: seq<SessionData>, p: seq<SessionData>, s: SessionData, id: string, r: Option<SessionData>)
    requires s.id == id && Winner(m0, p, id, r)
    requires r.Some? && s.lastModified <= r.value.lastModified
    ensures Winner(m0, p + [s], id, r)
  {
    IdsSnoc(p, s);
    assert forall c :: c in p + [s] <==> c == s || c in p;
  }

  lemma {:induction false} FoldCloudWinner(m0: seq<SessionData>, cloud: seq<SessionData>, id: string)
    ensures Winner(m0, cloud, id, Find(FoldCloud(m0, cloud), id))
    decreases |cloud|
  {
    if cloud != [] {
      var n := |cloud| - 1;
      FoldCloudWinner(m0, cloud[..n], id);
      WinnerStep(m0, cloud[..n], FoldCloud(m0, cloud[..n]), cloud[n], id);
      assert cloud == cloud[..n] + [cloud[n]];
    }
  }

  /**
    getAllSessions, when synced: every local and every cloud id appears
    exactly once; the record kept for an id is the local one or one of the
    cloud ones, no older than any of them, and the local one whenever no
    cloud record is strictly more recent (a tie keeps the local record).
   */
  lemma MergeLastWriterWins(local: seq<SessionData>, cloud: seq<SessionData>)
    requires UniqueIds(local)
    ensures Ids(MergeOf(local, cloud)) == Ids(local) + Ids(cloud)
    ensures UniqueIds(MergeOf(local, cloud))
    ensures forall id :: Winner(local, cloud, id, Find(MergeOf(local, cloud), id))
  {
    LoadAllUnique(local);
    FoldCloudIds(local, cloud);
    FoldCloudUnique(local, cloud);
    forall id ensures Winner(local, cloud, id, Find(MergeOf(local, cloud), id)) {
      FoldCloudWinner(local, cloud, id);
    }
  }

  /** Merging with an empty cloud list gives back the local sessions. */
  lemma MergeWithoutCloud(local: seq<SessionData>)
    requires UniqueIds(local)
    ensures MergeOf(local, []) == local
  {
    LoadAllUnique(local);
  }

  // ---------------------------------------------------------------------
  // The storage object
  // ---------------------------------------------------------------------

  /**
    SyncStorage over the local store and the signed-in user's cloud store.
    `synced` stands for "a user is signed in, subscribed, and sync is on";
    `cloudOk` for the cloud call succeeding.
   */
  class SessionStore {
    var local: seq<SessionData>
    var cloud: seq<SessionData>

    ghost predicate Valid()
      reads this
    {
      UniqueIds(local)
    }

    constructor(local0: seq<SessionData>, cloud0: seq<SessionData>)
      requires UniqueIds(local0)
      ensures Valid() && local == local0 && cloud == cloud0
    {
      local := local0;
      cloud := cloud0;
    }

    /**
      saveSession: always stored locally first; sent to the cloud only when
      synced, and a failed cloud call leaves the local write in place.
     */
    method SaveSession(session: SessionData, synced: bool, cloudOk: bool)
      requires Valid()
      modifies this
      ensures Valid()
      ensures local == Put(old(local), session)
      ensures cloud == if synced && cloudOk then old(cloud) + [session] else old(cloud)
    {
      PutFacts(local, session);
      local := Put(local, session);
      if synced {
        if cloudOk {
          cloud := cloud + [session];
        }
      }
    }

    /** getAllSessions: the merge when synced and the cloud answered, the local sessions otherwise. */
    method GetAllSessions(synced: bool, cloudOk: bool) returns (sessions: seq<SessionData>)
      requires Valid()
      ensures sessions == if synced && cloudOk then MergeOf(local, cloud) else local
    {
      if synced {
        if cloudOk {
          sessions := MergeSessions(local, cloud);
          return;
        }
        return local;
      }
      return local;
    }

    /** deleteSession: always removed locally; removed from the cloud only when synced. */
    method DeleteSession(id: string, synced: bool, cloudOk: bool)
      requires Valid()
      modifies this
      ensures Valid()
      ensures local == Remove(old(local), id)
      ensures cloud == if synced && cloudOk then Remove(old(cloud), id) else old(cloud)
    {
      RemoveFacts(local, id);
      local := Remove(local, id);
      if synced && cloudOk {
        cloud := Remove(cloud, id);
      }
    }
  }

  /**
    Saving then deleting the same id leaves no local record for it, and
    every other local record as it was.
   */
  lemma SaveThenDelete(xs: seq<SessionData>, s: SessionData)
    ensures s.id !in Ids(Remove(Put(xs, s), s.id))
    ensures forall k :: k != s.id ==> Find(Remove(Put(xs, s), s.id), k) == Find(xs, k)
  {
    PutFacts(xs, s);
    RemoveFacts(Put(xs, s), s.id);
  }
}
