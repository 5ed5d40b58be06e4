/**
  The clipboard listener: while listening, each poll of the clipboard may
  capture its text as a conversation, newest first, in a bounded list.
 */
module Clipboard {
  import opened Optional
  import opened Text
  import opened EdcmTypes
  import EdcmEngine

  const MAX_CAPTURES: nat := 50
  const MAX_TEXT: nat := 2000

  datatype ClipboardCapture = ClipboardCapture(
    id: string,
    text: string,
    timestamp: string,
    turns: seq<ConversationTurn>,
    analyzed: bool)

  /** The answer of the permissions query for clipboard reading. */
  datatype PermissionState = Granted | Prompt | Denied

  /** The component state: the listening switch, the captures, the last text seen, and the permission (unknown at first). */
  datatype ClipState = ClipState(
    isListening: bool,
    captures: seq<ClipboardCapture>,
    lastClipboard: string,
    hasPermission: Option<bool>)

  const INITIAL: ClipState := ClipState(false, [], "", None)

  /** A clipboard text is captured when non-empty, new, and longer than 10 characters once trimmed. */
  predicate Accepts(text: string, last: string)
  {
    text != "" && text != last && |Trim(text)| > 10
  }

  /** The capture of a text: at most 2000 characters kept, turns taken from the whole text. */
  function CaptureOf(text: string, id: string, timestamp: string): ClipboardCapture
  {
    ClipboardCapture(id, Slice(text, 0, MAX_TEXT as int), timestamp,
      EdcmEngine.NormalizeTurnsOf(RequestBody(None, Some(text), None, None)), false)
  }

  /** `[capture, ...prev].slice(0, 50)`. */
  function Prepend(c: ClipboardCapture, prev: seq<ClipboardCapture>): seq<ClipboardCapture>
  {
    var all := [c] + prev;
    if |all| <= MAX_CAPTURES then all else all[..MAX_CAPTURES]
  }

  /**
    checkClipboard. `read` is the clipboard's text, or None when reading
    failed (the failure is swallowed); the id and timestamp are the fresh
    values the capture gets.
   */
  function Check(st: ClipState, read: Option<string>, id: string, timestamp: string): ClipState
  {
    if !st.isListening || read.None? || !Accepts(read.value, st.lastClipboard) then st
    else st.(lastClipboard := read.value, captures := Prepend(CaptureOf(read.value, id, timestamp), st.captures))
  }

  /**
    requestPermission. `query` is the permission state, or None when the
    query failed; `read1` and `read2` say whether the clipboard reads in the
    prompt path and in the fallback path succeed.
   */
  function RequestPermission(st: ClipState, query: Option<PermissionState>, read1: bool, read2: bool): ClipState
  {
    var granted := st.(hasPermission := Some(true), isListening := true);
    var refused := st.(hasPermission := Some(false));
    if query == Some(Granted) then granted
    else if query == Some(Denied) then refused
    else if query == Some(Prompt) && read1 then granted
    else if read2 then granted
    else refused
  }

  /** toggleListening: ask for permission on the first switch-on, otherwise flip the switch. */
  function Toggle(st: ClipState, query: Option<PermissionState>, read1: bool, read2: bool): ClipState
  {
    if !st.isListening && st.hasPermission.None? then RequestPermission(st, query, read1, read2)
    else st.(isListening := !st.isListening)
  }

  /** handleAnalyze: mark the capture with the id as analyzed. */
  function MarkAnalyzed(captures: seq<ClipboardCapture>, id: string): (r: seq<ClipboardCapture>)
  {
    seq(|captures|, i requires 0 <= i < |captures| =>
      if captures[i].id == id then captures[i].(analyzed := true) else captures[i])
  }

  /** What every reachable state satisfies: at most 50 captures, each of at most 2000 characters. */
  predicate Bounded(st: ClipState)
  {
    |st.captures| <= MAX_CAPTURES && forall i :: 0 <= i < |st.captures| ==> |st.captures[i].text| <= MAX_TEXT
  }

  /**
    checkClipboard: nothing changes unless listening and the read text is
    accepted; an accepted text becomes the last text seen and its capture
    (at most 2000 characters, a prefix of the text, not yet analyzed) is
    put first, the older captures following, 49 at most.
   */
  lemma CheckRules(st: ClipState, read: Option<string>, id: string, timestamp: string)
    ensures var st' := Check(st, read, id, timestamp);
      (!st.isListening || read.None? || !Accepts(read.value, st.lastClipboard) ==> st' == st)
      && (st.isListening && read.Some? && Accepts(read.value, st.lastClipboard) ==>
            st'.lastClipboard == read.value && st'.isListening && st'.hasPermission == st.hasPermission
            && st'.captures[0].id == id && !st'.captures[0].analyzed
            && st'.captures[0].text == read.value[..if |read.value| <= MAX_TEXT then |read.value| else MAX_TEXT]
            && st'.captures[1..] == st.captures[..if |st.captures| < MAX_CAPTURES then |st.captures| else MAX_CAPTURES - 1])
  {
  }

  /** Every operation keeps the bounds. */
  lemma CheckBounded(st: ClipState, read: Option<string>, id: string, timestamp: string)
    requires Bounded(st)
    ensures Bounded(Check(st, read, id, timestamp))
  {
    if st.isListening && read.Some? && Accepts(read.value, st.lastClipboard) {
      var c := CaptureOf(read.value, id, timestamp);
      var r := Prepend(c, st.captures);
      forall i | 0 <= i < |r| ensures |r[i].text| <= MAX_TEXT {
        if i > 0 {
          assert r[i] == st.captures[i - 1];
        }
      }
    }
  }

  /**
    A text equal to the last one seen is never captured twice in a row, and
    a capture always changes the last text seen.
   */
  lemma NoRepeatCapture(st: ClipState, text: string, id1: string, ts1: string, id2: string, ts2: string)
    ensures var st1 := Check(st, Some(text), id1, ts1);
      st1 != st ==> Check(st1, Some(text), id2, ts2) == st1
  {
  }

  /**
    handleAnalyze: the same captures in the same order with the same ids;
    exactly the ones with the id become analyzed, the rest are unchanged.
   */
  lemma MarkAnalyzedRules(captures: seq<ClipboardCapture>, id: string)
    ensures var r := MarkAnalyzed(captures, id);
      |r| == |captures|
      && forall i :: 0 <= i < |r| ==>
        r[i].id == captures[i].id && r[i].text == captures[i].text && r[i].turns == captures[i].turns
        && r[i].analyzed == (captures[i].analyzed || captures[i].id == id)
        && (captures[i].id != id ==> r[i] == captures[i])
  {
  }

  /**
    toggleListening: a listening switch always turns off, changing nothing
    else; a paused switch with a known permission turns on; a paused switch
    with unknown permission settles the permission and listens exactly when
    it was granted.
   */
  lemma ToggleRules(st: ClipState, query: Option<PermissionState>, read1: bool, read2: bool)
    ensures var st' := Toggle(st, query, read1, read2);
      st'.captures == st.captures && st'.lastClipboard == st.lastClipboard
      && (st.isListening ==> st' == st.(isListening := false))
      && (!st.isListening && st.hasPermission.Some? ==> st' == st.(isListening := true))
      && (!st.isListening && st.hasPermission.None? ==>
            st'.hasPermission.Some? && (st'.isListening <==> st'.hasPermission == Some(true)))
      && (!st.isListening && st.hasPermission.None? && query == Some(Granted) ==> st'.isListening)
      && (!st.isListening && st.hasPermission.None? && query == Some(Denied) ==> !st'.isListening)
  {
  }

  /** The listener as the component holds it. */
  class ClipboardListener {
    var isListening: bool
    var captures: seq<ClipboardCapture>
    var lastClipboard: string
    var hasPermission: Option<bool>

    function State(): ClipState
      reads this
    {
      ClipState(isListening, captures, lastClipboard, hasPermission)
    }

    constructor()
      ensures State() == INITIAL && Bounded(State())
    {
      isListening := false;
      captures := [];
      lastClipboard := "";
      hasPermission := None;
    }

    method CheckClipboard(read: Option<string>, id: string, timestamp: string)
      requires Bounded(State())
      modifies this
      ensures State() == Check(old(State()), read, id, timestamp)
      ensures Bounded(State())
    {
      CheckBounded(State(), read, id, timestamp);
      if !isListening {
        return;
      }
      if read.Some? {
        var text := read.value;
        if text != "" && text != lastClipboard && |Trim(text)| > 10 {
          lastClipboard := text;
          var turns := EdcmEngine.NormalizeTurns(RequestBody(None, Some(text), None, None));
          var capture := ClipboardCapture(id, Slice(text, 0, 2000), timestamp, turns, false);
          captures := Prepend(capture, captures);
        }
      }
    }

    method ToggleListening(query: Option<PermissionState>, read1: bool, read2: bool)
      requires Bounded(State())
      modifies this
      ensures State() == Toggle(old(State()), query, read1, read2)
      ensures Bounded(State())
    {
      if !isListening && hasPermission.None? {
        RequestPermissionNow(query, read1, read2);
      } else {
        isListening := !isListening;
      }
    }

    method RequestPermissionNow(query: Option<PermissionState>, read1: bool, read2: bool)
      modifies this
      ensures State() == RequestPermission(old(State()), query, read1, read2)
    {
      if query.Some? {
        hasPermission := Some(query.value == Granted);
        if query.value == Granted {
          isListening := true;
        } else if query.value == Prompt {
          if read1 {
            hasPermission := Some(true);
            isListening := true;
          } else if read2 {
            hasPermission := Some(true);
            isListening := true;
          } else {
            hasPermission := Some(false);
          }
        }
      } else if read2 {
        hasPermission := Some(true);
        isListening := true;
      } else {
        hasPermission := Some(false);
      }
    }

    method HandleAnalyze(capture: ClipboardCapture)
      requires Bounded(State())
      modifies this
      ensures captures == MarkAnalyzed(old(captures), capture.id)
      ensures isListening == old(isListening) && lastClipboard == old(lastClipboard) && hasPermission == old(hasPermission)
      ensures Bounded(State())
    {
      captures := MarkAnalyzed(captures, capture.id);
    }

    method ClearCaptures()
      modifies this
      ensures State() == old(State()).(captures := [])
    {
      captures := [];
    }
  }
}
