/**
  toCanonicalConversation (shared/canonical-schema.ts): a list of raw
  speaker-tagged messages becomes the canonical conversation record, with
  the distinct participants, per-message confidence, the timestamp range and
  the metadata defaults. The current time and the fresh id are parameters.
 */
module Canonical {
  import opened Text
  import opened Optional

  datatype SourceTier = Clipboard | MessageSync | LiveAudio | PoliticalIngest | Paste
  datatype DataDomain = Relationship | Political | Mixed
  datatype ConsentLevel = Implicit | Explicit | NoConsent
  datatype TierLevel = Free | PaidBasic | PaidPro

  datatype RawMessage = RawMessage(speaker: string, text: string, timestamp: Option<string>)

  datatype CanonicalMessage = CanonicalMessage(
    speaker: string,
    timestamp: string,
    content: string,
    source_tier: SourceTier,
    confidence: real)

  datatype CanonicalMetadata = CanonicalMetadata(
    tier: TierLevel,
    privacy_mode: bool,
    consent_level: ConsentLevel,
    data_domain: DataDomain)

  datatype CanonicalConversation = CanonicalConversation(
    conversation_id: string,
    timestamp_range: (string, string),
    participants: seq<string>,
    messages: seq<CanonicalMessage>,
    metadata: CanonicalMetadata)

  datatype Params = Params(
    id: Option<string>,
    messages: seq<RawMessage>,
    source: SourceTier,
    domain: DataDomain,
    tier: Option<TierLevel>,
    consent: Option<ConsentLevel>)

  /** One raw message in canonical form, stamped with `now` when it carries no timestamp. */
  function MessageOf(m: RawMessage, source: SourceTier, now: string): CanonicalMessage
  {
    CanonicalMessage(
      OrElse(m.speaker, "unknown"),
      OrElse(if m.timestamp.Some? then m.timestamp.value else "", now),
      m.text,
      source,
      if m.speaker == "unknown" then 0.5 else 0.9)
  }

  /** The least string of a non-empty list in code-unit order, what `sort()[0]` yields. */
  function Least(ts: seq<string>): string
    requires ts != []
    decreases |ts|
  {
    if |ts| == 1 then ts[0]
    else
      var m := Least(ts[..|ts| - 1]);
      if LexLeq(m, ts[|ts| - 1]) then m else ts[|ts| - 1]
  }

  /** The greatest string of a non-empty list in code-unit order, what `sort()[length - 1]` yields. */
  function Greatest(ts: seq<string>): string
    requires ts != []
    decreases |ts|
  {
    if |ts| == 1 then ts[0]
    else
      var m := Greatest(ts[..|ts| - 1]);
      if LexLeq(ts[|ts| - 1], m) then m else ts[|ts| - 1]
  }

  lemma {:induction false} LeastIsMinimum(ts: seq<string>)
    requires ts != []
    ensures Least(ts) in ts
    ensures forall i :: 0 <= i < |ts| ==> LexLeq(Least(ts), ts[i])
    decreases |ts|
  {
    if |ts| == 1 {
      LexLeqReflexive(ts[0]);
    } else {
      var n := |ts| - 1;
      var p := ts[..n];
      LeastIsMinimum(p);
      var m := Least(p);
      LexLeqTotal(m, ts[n]);
      LexLeqReflexive(ts[n]);
      forall i | 0 <= i < |ts| ensures LexLeq(Least(ts), ts[i]) {
        if i < n {
          assert ts[i] == p[i];
          if !LexLeq(m, ts[n]) {
            LexLeqTransitive(ts[n], m, ts[i]);
          }
        } else if LexLeq(m, ts[n]) {
          assert Least(ts) == m;
        }
      }
    }
  }

  lemma {:induction false} GreatestIsMaximum(ts: seq<string>)
    requires ts != []
    ensures Greatest(ts) in ts
    ensures forall i :: 0 <= i < |ts| ==> LexLeq(ts[i], Greatest(ts))
    decreases |ts|
  {
    if |ts| == 1 {
      LexLeqReflexive(ts[0]);
    } else {
      var n := |ts| - 1;
      var p := ts[..n];
      GreatestIsMaximum(p);
      var m := Greatest(p);
      LexLeqTotal(m, ts[n]);
      LexLeqReflexive(ts[n]);
      forall i | 0 <= i < |ts| ensures LexLeq(ts[i], Greatest(ts)) {
        if i < n {
          assert ts[i] == p[i];
          if !LexLeq(ts[n], m) {
            LexLeqTransitive(ts[i], m, ts[n]);
          }
        } else if LexLeq(ts[n], m) {
          assert Greatest(ts) == m;
        }
      }
    }
  }

  function Timestamps(msgs: seq<CanonicalMessage>): seq<string>
  {
    seq(|msgs|, i requires 0 <= i < |msgs| => msgs[i].timestamp)
  }

  /** `[timestamps[0] || now, timestamps[timestamps.length - 1] || now]` over the sorted timestamps. */
  function TimestampRange(ts: seq<string>, now: string): (string, string)
  {
    if ts == [] then (now, now) else (OrElse(Least(ts), now), OrElse(Greatest(ts), now))
  }

  function Speakers(msgs: seq<RawMessage>): seq<string>
  {
    seq(|msgs|, i requires 0 <= i < |msgs| => msgs[i].speaker)
  }

  /** toCanonicalConversation; `now` is the current ISO time and `freshId` the random UUID. */
  function ToCanonicalConversation(params: Params, now: string, freshId: string): CanonicalConversation
  {
    var msgs := seq(|params.messages|, i requires 0 <= i < |params.messages| =>
      MessageOf(params.messages[i], params.source, now));
    CanonicalConversation(
      OrElse(if params.id.Some? then params.id.value else "", freshId),
      TimestampRange(Timestamps(msgs), now),
      Distinct(Speakers(params.messages)),
      msgs,
      CanonicalMetadata(
        if params.tier.Some? then params.tier.value else Free,
        true,
        if params.consent.Some? then params.consent.value else Explicit,
        params.domain))
  }

  /**
    Messages keep the input's length and order with content and source
    carried over; confidence is 0.5 exactly for the raw speaker "unknown";
    an empty speaker is relabelled "unknown" yet keeps confidence 0.9; a
    missing or empty timestamp becomes `now`.
   */
  lemma MessagesShape(params: Params, now: string, freshId: string)
    ensures var c := ToCanonicalConversation(params, now, freshId);
      |c.messages| == |params.messages|
      && forall i :: 0 <= i < |c.messages| ==>
        var (m, raw) := (c.messages[i], params.messages[i]);
        m.content == raw.text && m.source_tier == params.source
        && (m.confidence == 0.5 <==> raw.speaker == "unknown")
        && (m.confidence == 0.9 <==> raw.speaker != "unknown")
        && (raw.speaker == "" ==> m.speaker == "unknown" && m.confidence == 0.9)
        && (raw.speaker != "" ==> m.speaker == raw.speaker)
        && (raw.timestamp.Some? && raw.timestamp.value != "" ==> m.timestamp == raw.timestamp.value)
        && (raw.timestamp.None? ==> m.timestamp == now)
  {
  }

  /** Participants are the distinct raw speakers, the empty one included, in first-appearance order. */
  lemma ParticipantsShape(params: Params, now: string, freshId: string)
    ensures var c := ToCanonicalConversation(params, now, freshId);
      var sp := Speakers(params.messages);
      NoDuplicates(c.participants)
      && (forall x :: x in c.participants <==> x in sp)
      && forall i, j :: 0 <= i < j < |c.participants| ==> FirstPos(sp, c.participants[i]) < FirstPos(sp, c.participants[j])
  {
    DistinctMeaning(Speakers(params.messages));
  }

  /**
    The range is (now, now) without messages; otherwise, as the current time
    is never empty, it runs from the least to the greatest timestamp in
    code-unit order, both of them timestamps of messages.
   */
  lemma TimestampRangeShape(params: Params, now: string, freshId: string)
    requires now != ""
    ensures var c := ToCanonicalConversation(params, now, freshId);
      var ts := Timestamps(c.messages);
      (params.messages == [] ==> c.timestamp_range == (now, now))
      && (params.messages != [] ==>
        c.timestamp_range.0 in ts && c.timestamp_range.1 in ts
        && forall i :: 0 <= i < |ts| ==> LexLeq(c.timestamp_range.0, ts[i]) && LexLeq(ts[i], c.timestamp_range.1))
  {
    var c := ToCanonicalConversation(params, now, freshId);
    var ts := Timestamps(c.messages);
    if ts != [] {
      LeastIsMinimum(ts);
      GreatestIsMaximum(ts);
      forall i | 0 <= i < |ts| ensures ts[i] != "" {
        assert ts[i] == c.messages[i].timestamp;
      }
    }
  }

  /** Metadata defaults: free tier, explicit consent, privacy always on; the given id is kept. */
  lemma MetadataDefaults(params: Params, now: string, freshId: string)
    ensures var c := ToCanonicalConversation(params, now, freshId);
      c.metadata.privacy_mode && c.metadata.data_domain == params.domain
      && (params.tier.None? ==> c.metadata.tier == Free)
      && (params.consent.None? ==> c.metadata.consent_level == Explicit)
      && (params.id.Some? && params.id.value != "" ==> c.conversation_id == params.id.value)
      && (params.id.None? ==> c.conversation_id == freshId)
  {
  }
}
