/**
  The local analytics store: the sync settings and the per-analysis events,
  kept in a keyed store with an index on the creation time.
 */
module Analytics {
  import opened Optional
  import opened Text
  import opened EdcmTypes

  datatype AnalyticsSettings = AnalyticsSettings(
    cloudSync: SyncMode,
    allowTextUpload: bool,
    appVersion: string,
    specVersion: string)

  /** A partial settings object; the spec version can only ever be the one constant, so it is not patchable. */
  datatype SettingsPatch = SettingsPatch(
    cloudSync: Option<SyncMode>,
    allowTextUpload: Option<bool>,
    appVersion: Option<string>)

  /** The limit listAnalyticsEvents uses when its caller gives none. */
  const DEFAULT_LIST_LIMIT: int := 300

  const DEFAULT_SETTINGS: AnalyticsSettings := AnalyticsSettings(Off, false, "0.0.0", SPEC_VERSION)

  /** Text upload is allowed exactly in the include-text sync mode. */
  predicate Consistent(s: AnalyticsSettings)
  {
    s.allowTextUpload == (s.cloudSync == IncludeText) && s.specVersion == SPEC_VERSION
  }

  /** `{ ...cur, ...patch }`, then the upload flag recomputed from the sync mode. */
  function Patched(cur: AnalyticsSettings, patch: SettingsPatch): AnalyticsSettings
  {
    var mode := if patch.cloudSync.Some? then patch.cloudSync.value else cur.cloudSync;
    AnalyticsSettings(
      mode,
      mode == IncludeText,
      if patch.appVersion.Some? then patch.appVersion.value else cur.appVersion,
      cur.specVersion)
  }

  /**
    setSettings: a patched sync mode or app version overrides the current
    one, the upload flag follows the sync mode whatever the patch said, and
    the result is consistent.
   */
  lemma PatchedRules(cur: AnalyticsSettings, patch: SettingsPatch)
    requires cur.specVersion == SPEC_VERSION
    ensures var next := Patched(cur, patch);
      Consistent(next)
      && next.cloudSync == (if patch.cloudSync.Some? then patch.cloudSync.value else cur.cloudSync)
      && next.appVersion == (if patch.appVersion.Some? then patch.appVersion.value else cur.appVersion)
      && next == Patched(cur, patch.(allowTextUpload := None))
  {
  }

  lemma DefaultsConsistent()
    ensures Consistent(DEFAULT_SETTINGS) && DEFAULT_SETTINGS.cloudSync == Off && !DEFAULT_SETTINGS.allowTextUpload
  {
  }

  datatype AnalyticsEvent = AnalyticsEvent(
    id: string,
    created_at: string,
    session_id: string,
    mode: Mode,
    turn_count: nat,
    char_count: nat,
    metrics: Metrics,
    quality_flags: seq<EdcmFlag>,
    hmmm_count: nat,
    hmmm_tags: seq<string>,
    app_version: string,
    spec_version: string,
    raw_text: Option<string>)

  /** The summed lengths of the turn texts. */
  function CharCount(turns: seq<ConversationTurn>): nat
    decreases |turns|
  {
    if turns == [] then 0 else CharCount(turns[..|turns| - 1]) + |turns[|turns| - 1].text|
  }

  /** `flatMap(h => h.tags)`. */
  function AllTags(items: seq<HmmItem>): seq<string>
    decreases |items|
  {
    if items == [] then [] else AllTags(items[..|items| - 1]) + items[|items| - 1].tags
  }

  /**
    The event addAnalyticsEvent records; the id (a random UUID) and the
    creation time are parameters.
   */
  function EventOf(settings: AnalyticsSettings, result: EdcmResult, sessionId: string, rawText: Option<string>,
                   id: string, createdAt: string): AnalyticsEvent
  {
    AnalyticsEvent(
      id, createdAt, sessionId, result.mode,
      |result.conversation_turns|, CharCount(result.conversation_turns),
      result.metrics, result.quality_flags,
      |result.hmmm_items|, Distinct(AllTags(result.hmmm_items)),
      settings.appVersion, settings.specVersion,
      if settings.allowTextUpload then Some(if rawText.Some? then rawText.value else "") else None)
  }

  lemma {:induction false} CharCountZero(turns: seq<ConversationTurn>)
    ensures CharCount(turns) == 0 <==> forall i :: 0 <= i < |turns| ==> turns[i].text == ""
    decreases |turns|
  {
    if turns != [] {
      var n := |turns| - 1;
      CharCountZero(turns[..n]);
      assert forall i :: 0 <= i < n ==> turns[..n][i] == turns[i];
    }
  }

  lemma {:induction false} AllTagsMembers(items: seq<HmmItem>)
    ensures forall t :: t in AllTags(items) <==> exists i :: 0 <= i < |items| && t in items[i].tags
    decreases |items|
  {
    if items != [] {
      var n := |items| - 1;
      AllTagsMembers(items[..n]);
      forall t | t in AllTags(items) ensures exists i :: 0 <= i < |items| && t in items[i].tags {
        if t !in items[n].tags {
          assert t in AllTags(items[..n]);
          var i :| 0 <= i < n && t in items[..n][i].tags;
          assert t in items[i].tags;
        }
      }
      forall t, i | 0 <= i < |items| && t in items[i].tags ensures t in AllTags(items) {
        if i < n {
          assert t in items[..n][i].tags;
        }
      }
    }
  }

  /**
    addAnalyticsEvent: the turn count is the number of turns and the
    character count is zero exactly when every turn text is empty; the tags
    are the tags of the items, each once, in first-seen order; the item
    count is the number of items; raw text is attached exactly when text
    upload is allowed, and then defaults to "".
   */
  lemma EventOfRules(settings: AnalyticsSettings, result: EdcmResult, sessionId: string, rawText: Option<string>,
                     id: string, createdAt: string)
    ensures var e := EventOf(settings, result, sessionId, rawText, id, createdAt);
      var turns := result.conversation_turns;
      var items := result.hmmm_items;
      e.turn_count == |turns|
      && (e.char_count == 0 <==> forall i :: 0 <= i < |turns| ==> turns[i].text == "")
      && (forall t :: t in e.hmmm_tags <==> exists i :: 0 <= i < |items| && t in items[i].tags)
      && (forall t :: t in e.hmmm_tags <==> t in AllTags(items))
      && NoDuplicates(e.hmmm_tags)
      && (forall i, j :: 0 <= i < j < |e.hmmm_tags| ==>
            FirstPos(AllTags(items), e.hmmm_tags[i]) < FirstPos(AllTags(items), e.hmmm_tags[j]))
      && e.hmmm_count == |items|
      && (e.raw_text.Some? <==> settings.allowTextUpload)
      && (e.raw_text.Some? && rawText.None? ==> e.raw_text.value == "")
  {
    CharCountZero(result.conversation_turns);
    AllTagsMembers(result.hmmm_items);
    DistinctMeaning(AllTags(result.hmmm_items));
  }

  /** With consistent settings, raw text leaves the device only in the include-text sync mode. */
  lemma RawTextOnlyWhenIncludeText(settings: AnalyticsSettings, result: EdcmResult, sessionId: string,
                                   rawText: Option<string>, id: string, createdAt: string)
    requires Consistent(settings)
    ensures EventOf(settings, result, sessionId, rawText, id, createdAt).raw_text.Some? <==> settings.cloudSync == IncludeText
  {
  }

  // ---------------------------------------------------------------------
  // The created_at index
  // ---------------------------------------------------------------------

  /** The index order: creation time, then the primary key, both compared by code unit. */
  predicate EventLeq(a: AnalyticsEvent, b: AnalyticsEvent)
  {
    if a.created_at != b.created_at then LexLeq(a.created_at, b.created_at) else LexLeq(a.id, b.id)
  }

  lemma EventLeqTotal(a: AnalyticsEvent, b: AnalyticsEvent)
    ensures EventLeq(a, b) || EventLeq(b, a)
  {
    LexLeqTotal(a.created_at, b.created_at);
    LexLeqTotal(a.id, b.id);
  }

  lemma EventLeqTransitive(a: AnalyticsEvent, b: AnalyticsEvent, c: AnalyticsEvent)
    requires EventLeq(a, b) && EventLeq(b, c)
    ensures EventLeq(a, c)
  {
    if a.created_at == b.created_at && b.created_at == c.created_at {
      LexLeqTransitive(a.id, b.id, c.id);
    } else if a.created_at == b.created_at {
    } else if b.created_at == c.created_at {
    } else {
      LexLeqTransitive(a.created_at, b.created_at, c.created_at);
      if a.created_at == c.created_at {
        LexLeqAntisymmetric(a.created_at, b.created_at);
      }
    }
  }

  predicate Sorted(xs: seq<AnalyticsEvent>)
  {
    forall i, j :: 0 <= i < j < |xs| ==> EventLeq(xs[i], xs[j])
  }

  function EventIds(xs: seq<AnalyticsEvent>): set<string>
  {
    set e | e in xs :: e.id
  }

  /** `put` of a new key: the event goes before the first event that sorts after it. */
  function Insert(xs: seq<AnalyticsEvent>, e: AnalyticsEvent): seq<AnalyticsEvent>
    decreases |xs|
  {
    if xs == [] then [e]
    else if EventLeq(e, xs[0]) then [e] + xs
    else [xs[0]] + Insert(xs[1..], e)
  }

  lemma {:induction false} InsertMultiset(xs: seq<AnalyticsEvent>, e: AnalyticsEvent)
    ensures multiset(Insert(xs, e)) == multiset(xs) + multiset{e}
    decreases |xs|
  {
    if xs != [] {
      assert xs == [xs[0]] + xs[1..];
      if !EventLeq(e, xs[0]) {
        InsertMultiset(xs[1..], e);
      }
    }
  }

  /** Inserting keeps the index sorted and adds exactly the one event. */
  lemma {:induction false} InsertFacts(xs: seq<AnalyticsEvent>, e: AnalyticsEvent)
    requires Sorted(xs)
    ensures Sorted(Insert(xs, e))
    ensures multiset(Insert(xs, e)) == multiset(xs) + multiset{e}
    decreases |xs|
  {
    InsertMultiset(xs, e);
    if xs == [] {
    } else if EventLeq(e, xs[0]) {
      forall j | 0 <= j < |xs| ensures EventLeq(e, xs[j]) {
        if j > 0 {
          EventLeqTransitive(e, xs[0], xs[j]);
        }
      }
      SortedCons(e, xs);
    } else {
      EventLeqTotal(e, xs[0]);
      assert Sorted(xs[1..]) by {
        forall a, b | 0 <= a < b < |xs[1..]| ensures EventLeq(xs[1..][a], xs[1..][b]) {
          assert xs[1..][a] == xs[a + 1] && xs[1..][b] == xs[b + 1];
        }
      }
      InsertFacts(xs[1..], e);
      var r := Insert(xs[1..], e);
      forall j | 0 <= j < |r| ensures EventLeq(xs[0], r[j]) {
        assert r[j] in multiset(r);
        assert r[j] == e || r[j] in xs[1..];
      }
      SortedCons(xs[0], r);
    }
  }

  /** An event no later than every event of a sorted index can go in front of it. */
  lemma SortedCons(x: AnalyticsEvent, ys: seq<AnalyticsEvent>)
    requires Sorted(ys) && forall j :: 0 <= j < |ys| ==> EventLeq(x, ys[j])
    ensures Sorted([x] + ys)
  {
    var r := [x] + ys;
    forall a, b | 0 <= a < b < |r| ensures EventLeq(r[a], r[b]) {
      assert r[b] == ys[b - 1];
      if a > 0 {
        assert r[a] == ys[a - 1];
      }
    }
  }

  /** Up to `limit` events, walking the index from its newest end. */
  function Newest(xs: seq<AnalyticsEvent>, limit: int): (r: seq<AnalyticsEvent>)
  {
    var k := if limit <= 0 then 0 else if limit < |xs| then limit else |xs|;
    seq(k, i requires 0 <= i < k => xs[|xs| - 1 - i])
  }

  /**
    listAnalyticsEvents over a sorted index: min(limit, n) events (none
    for a limit of 0 or less), newest first, and no event left out is
    newer than one returned.
   */
  lemma NewestRules(xs: seq<AnalyticsEvent>, limit: int)
    requires Sorted(xs)
    ensures var r := Newest(xs, limit);
      |r| == (if limit <= 0 then 0 else if limit < |xs| then limit else |xs|)
      && multiset(r) <= multiset(xs)
      && (forall i, j :: 0 <= i < j < |r| ==> EventLeq(r[j], r[i]))
      && (forall i, j :: 0 <= i < |xs| - |r| && 0 <= j < |r| ==> EventLeq(xs[i], r[j]))
  {
    var r := Newest(xs, limit);
    var k := |r|;
    NewestMultiset(xs, limit);
    forall i, j | 0 <= i < j < |r| ensures EventLeq(r[j], r[i]) {
      assert r[j] == xs[|xs| - 1 - j] && r[i] == xs[|xs| - 1 - i];
    }
    forall i, j | 0 <= i < |xs| - k && 0 <= j < k ensures EventLeq(xs[i], r[j]) {
      assert r[j] == xs[|xs| - 1 - j];
    }
  }

  /** The events listed are events of the index. */
  lemma NewestMultiset(xs: seq<AnalyticsEvent>, limit: int)
    ensures multiset(Newest(xs, limit)) <= multiset(xs)
  {
    var r := Newest(xs, limit);
    var k := |r|;
    assert r == Reversed(xs[|xs| - k..]);
    ReversedMultiset(xs[|xs| - k..]);
    assert xs == xs[..|xs| - k] + xs[|xs| - k..];
  }

  function Reversed(xs: seq<AnalyticsEvent>): (r: seq<AnalyticsEvent>)
    ensures |r| == |xs| && forall i :: 0 <= i < |xs| ==> r[i] == xs[|xs| - 1 - i]
    decreases |xs|
  {
    if xs == [] then [] else [xs[|xs| - 1]] + Reversed(xs[..|xs| - 1])
  }

  lemma {:induction false} ReversedMultiset(xs: seq<AnalyticsEvent>)
    ensures multiset(Reversed(xs)) == multiset(xs)
    decreases |xs|
  {
    if xs != [] {
      var n := |xs| - 1;
      ReversedMultiset(xs[..n]);
      assert xs == xs[..n] + [xs[n]];
    }
  }

  // ---------------------------------------------------------------------
  // The store
  // ---------------------------------------------------------------------

  /** The two object stores: the settings record and the events in their created_at index order. */
  class AnalyticsStore {
    var settings: Option<AnalyticsSettings>
    var events: seq<AnalyticsEvent>

    ghost predicate Valid()
      reads this
    {
      (settings.Some? ==> Consistent(settings.value)) && Sorted(events)
    }

    constructor()
      ensures Valid() && settings == None && events == []
    {
      settings := None;
      events := [];
    }

    /** getSettings: the stored settings, or the defaults, which are then stored. */
    method GetSettings() returns (s: AnalyticsSettings)
      requires Valid()
      modifies this
      ensures Valid() && Consistent(s)
      ensures s == (if old(settings).Some? then old(settings).value else DEFAULT_SETTINGS)
      ensures settings == Some(s) && events == old(events)
    {
      if settings.Some? {
        return settings.value;
      }
      s := DEFAULT_SETTINGS;
      settings := Some(s);
    }

    /** setSettings: the patched settings, stored and returned. */
    method SetSettings(patch: SettingsPatch) returns (next: AnalyticsSettings)
      requires Valid()
      modifies this
      ensures Valid() && Consistent(next)
      ensures next == Patched(if old(settings).Some? then old(settings).value else DEFAULT_SETTINGS, patch)
      ensures settings == Some(next) && events == old(events)
    {
      var cur := GetSettings();
      next := cur.(cloudSync := if patch.cloudSync.Some? then patch.cloudSync.value else cur.cloudSync,
                   allowTextUpload := if patch.allowTextUpload.Some? then patch.allowTextUpload.value else cur.allowTextUpload,
                   appVersion := if patch.appVersion.Some? then patch.appVersion.value else cur.appVersion);
      next := next.(allowTextUpload := next.cloudSync == IncludeText);
      settings := Some(next);
    }

    /** addAnalyticsEvent: the event is built from the current settings and put into the store under a fresh id. */
    method AddAnalyticsEvent(result: EdcmResult, sessionId: string, rawText: Option<string>, id: string, createdAt: string)
      returns (e: AnalyticsEvent)
      requires Valid() && id !in EventIds(events)
      modifies this
      ensures Valid()
      ensures e == EventOf(if old(settings).Some? then old(settings).value else DEFAULT_SETTINGS,
                           result, sessionId, rawText, id, createdAt)
      ensures events == Insert(old(events), e)
      ensures multiset(events) == multiset(old(events)) + multiset{e}
      ensures settings == Some(if old(settings).Some? then old(settings).value else DEFAULT_SETTINGS)
    {
      var s := GetSettings();
      e := EventOf(s, result, sessionId, rawText, id, createdAt);
      InsertFacts(events, e);
      events := Insert(events, e);
    }

    /** listAnalyticsEvents: a cursor from the newest end of the index, stopping at `limit`. */
    method ListAnalyticsEvents(limit: int) returns (out: seq<AnalyticsEvent>)
      requires Valid()
      ensures out == Newest(events, limit)
    {
      out := [];
      var c := |events|;
      while c > 0 && |out| < limit
        invariant 0 <= c <= |events| && |out| == |events| - c
        invariant forall i :: 0 <= i < |out| ==> out[i] == events[|events| - 1 - i]
        invariant |out| <= (if limit <= 0 then 0 else limit)
      {
        out := out + [events[c - 1]];
        c := c - 1;
      }
    }

    /** listAnalyticsEvents called without a limit: the newest 300 events at most. */
    method ListAnalyticsEventsDefault() returns (out: seq<AnalyticsEvent>)
      requires Valid()
      ensures out == Newest(events, DEFAULT_LIST_LIMIT)
      ensures |out| == if |events| < DEFAULT_LIST_LIMIT then |events| else DEFAULT_LIST_LIMIT
    {
      out := ListAnalyticsEvents(DEFAULT_LIST_LIMIT);
    }
  }
}
