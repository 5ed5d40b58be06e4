/**
  The persisted subscription store: whether the user is subscribed and
  whether cloud sync is on.
 */
module Subscription {
  datatype AuthState = AuthState(isSubscribed: bool, syncEnabled: bool)

  /** The two setters of the store. */
  datatype AuthOp = SetSubscribed(status: bool) | SetSyncEnabled(status: bool)

  const INITIAL: AuthState := AuthState(false, false)

  /** Subscribing switches sync along with it; the sync setter touches only sync. */
  function Apply(s: AuthState, op: AuthOp): AuthState
  {
    match op
    case SetSubscribed(status) => AuthState(status, status)
    case SetSyncEnabled(status) => s.(syncEnabled := status)
  }

  /** The state after a run of setter calls from a fresh store. */
  function Run(ops: seq<AuthOp>): AuthState
    decreases |ops|
  {
    if ops == [] then INITIAL else Apply(Run(ops[..|ops| - 1]), ops[|ops| - 1])
  }

  /**
    After any run, sync is the status of the last call of either setter
    (off when there was none), and the subscription is the status of the
    last subscription call (off when there was none).
   */
  lemma {:induction false} RunMeaning(ops: seq<AuthOp>)
    ensures Run(ops).syncEnabled == (ops != [] && ops[|ops| - 1].status)
    ensures Run(ops).isSubscribed <==>
      exists i :: 0 <= i < |ops| && ops[i] == SetSubscribed(true)
        && forall j :: i < j < |ops| ==> !ops[j].SetSubscribed?
    decreases |ops|
  {
    if ops != [] {
      var n := |ops| - 1;
      var p := ops[..n];
      RunMeaning(p);
      assert forall j :: 0 <= j < n ==> ops[j] == p[j];
      if ops[n].SetSubscribed? {
        if ops[n].status {
          assert ops[n] == SetSubscribed(true);
        } else {
          forall i | 0 <= i < |ops| && ops[i] == SetSubscribed(true)
            ensures exists j :: i < j < |ops| && ops[j].SetSubscribed?
          {
            assert i < n;
          }
        }
      } else {
        if Run(p).isSubscribed {
          var i :| 0 <= i < n && p[i] == SetSubscribed(true) && forall j :: i < j < n ==> !p[j].SetSubscribed?;
          assert ops[i] == SetSubscribed(true) && forall j :: i < j < |ops| ==> !ops[j].SetSubscribed?;
        } else {
          forall i | 0 <= i < |ops| && ops[i] == SetSubscribed(true)
            ensures exists j :: i < j < |ops| && ops[j].SetSubscribed?
          {
            assert i < n && p[i] == SetSubscribed(true);
            var j :| i < j < n && p[j].SetSubscribed?;
            assert ops[j].SetSubscribed?;
          }
        }
      }
    }
  }

  /**
    Sync on without a subscription arises only when the last call switched
    sync on directly; after a subscription call the two flags agree.
   */
  lemma SyncWithoutSubscription(ops: seq<AuthOp>)
    ensures Run(ops).syncEnabled && !Run(ops).isSubscribed ==> ops[|ops| - 1] == SetSyncEnabled(true)
    ensures ops != [] && ops[|ops| - 1].SetSubscribed? ==> Run(ops).isSubscribed == Run(ops).syncEnabled
  {
    RunMeaning(ops);
    if ops != [] && ops[|ops| - 1] == SetSubscribed(true) {
      var n := |ops| - 1;
      assert ops[n] == SetSubscribed(true) && forall j :: n < j < |ops| ==> !ops[j].SetSubscribed?;
    }
  }

  /** useAuthStore: the store object with its two setters. */
  class AuthStore {
    var isSubscribed: bool
    var syncEnabled: bool

    function State(): AuthState
      reads this
    {
      AuthState(isSubscribed, syncEnabled)
    }

    constructor()
      ensures State() == INITIAL
    {
      isSubscribed := false;
      syncEnabled := false;
    }

    method SetSubscribed(status: bool)
      modifies this
      ensures State() == Apply(old(State()), AuthOp.SetSubscribed(status))
      ensures isSubscribed == status && syncEnabled == status
    {
      isSubscribed := status;
      syncEnabled := status;
    }

    method SetSyncEnabled(status: bool)
      modifies this
      ensures State() == Apply(old(State()), AuthOp.SetSyncEnabled(status))
      ensures syncEnabled == status && isSubscribed == old(isSubscribed)
    {
      syncEnabled := status;
    }
  }
}
