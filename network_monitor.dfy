/**
 * `NetworkMonitor`: watches the Wi-Fi link and calls its disconnect callback once each time the link
 * goes from up to down. The operating system's address-change event, the interface probe and the
 * SSID lookup are parameters; the callback is recorded by count.
 */
module Notification {
  import opened Wrappers

  /** Whether the link is up after `observations`, starting from `initial`. */
  function LastState(initial: bool, observations: seq<bool>): bool
  {
    if observations == [] then initial else observations[|observations| - 1]
  }

  /** How many times the link goes from up to down along `observations`, starting from `initial`. */
  function FallingEdges(initial: bool, observations: seq<bool>): nat
  {
    if observations == [] then 0
    else
      var before := observations[..|observations| - 1];
      FallingEdges(initial, before) +
      (if LastState(initial, before) && !observations[|observations| - 1] then 1 else 0)
  }

  /** How many times the link goes from down to up along `observations`, starting from `initial`. */
  function RisingEdges(initial: bool, observations: seq<bool>): nat
  {
    if observations == [] then 0
    else
      var before := observations[..|observations| - 1];
      RisingEdges(initial, before) +
      (if !LastState(initial, before) && observations[|observations| - 1] then 1 else 0)
  }

  function Indicator(b: bool): int { if b then 1 else 0 }

  /**
   * Outages and recoveries alternate: the falling edges outnumber the rising ones by exactly one when
   * the link starts up and ends down, and so on. In particular the callback fires at most once per
   * outage: never twice without a recovery in between.
   */
  lemma {:induction false} EdgesAlternate(initial: bool, observations: seq<bool>)
    ensures FallingEdges(initial, observations) - RisingEdges(initial, observations) ==
            Indicator(initial) - Indicator(LastState(initial, observations))
    decreases |observations|
  {
    if observations != [] {
      EdgesAlternate(initial, observations[..|observations| - 1]);
    }
  }

  /** A link that never drops never fires the callback. */
  lemma {:induction false} NoDropNoCallback(initial: bool, observations: seq<bool>)
    requires forall i :: 0 <= i < |observations| ==> observations[i]
    ensures FallingEdges(initial, observations) == 0
    decreases |observations|
  {
    if observations != [] {
      NoDropNoCallback(initial, observations[..|observations| - 1]);
    }
  }

  /** A link that is seen down throughout fires the callback exactly once if it started up, else never. */
  lemma {:induction false} PersistentOutageFiresOnce(initial: bool, observations: seq<bool>)
    requires forall i :: 0 <= i < |observations| ==> !observations[i]
    ensures FallingEdges(initial, observations) == if initial && observations != [] then 1 else 0
    decreases |observations|
  {
    if observations != [] {
      PersistentOutageFiresOnce(initial, observations[..|observations| - 1]);
    }
  }

  /**
   * One more change event extends a history the way `OnNetworkChanged` changes the monitor: the flag
   * becomes the new observation and the callback count grows exactly on an up-to-down change. So after
   * any sequence of events the monitor's flag is `LastState` and its callback count `FallingEdges`.
   */
  lemma FallingEdgesStep(initial: bool, observations: seq<bool>, isNowConnected: bool)
    ensures LastState(initial, observations + [isNowConnected]) == isNowConnected
    ensures FallingEdges(initial, observations + [isNowConnected]) ==
            FallingEdges(initial, observations) + if LastState(initial, observations) && !isNowConnected then 1 else 0
  {
    assert (observations + [isNowConnected])[..|observations|] == observations;
  }

  class NetworkMonitor {
    /** The SSID found by the last `StartMonitoring`; None when it could not be read. */
    var currentSsid: Option<string>
    var isConnected: bool
    /** How many times `OnNetworkChanged` is attached to the system's address-change event. */
    var subscriptions: nat
    /** How many times the disconnect callback has been invoked. */
    ghost var callbacks: nat

    /** `StartMonitoring` detaches before it attaches, so the handler is never attached twice. */
    ghost predicate Valid()
      reads this
    {
      subscriptions <= 1
    }

    /** The link is assumed up until a change event says otherwise. */
    constructor ()
      ensures Valid()
      ensures isConnected && currentSsid == None && subscriptions == 0 && callbacks == 0
    {
      isConnected := true;
      currentSsid := None;
      subscriptions := 0;
      callbacks := 0;
    }

    /** `StartMonitoring`: detach, attach again and record the SSID the system reports. */
    method StartMonitoring(ssid: Option<string>)
      requires Valid()
      modifies this`subscriptions, this`currentSsid
      ensures Valid()
      ensures subscriptions == 1
      ensures currentSsid == ssid
    {
      if subscriptions > 0 {
        subscriptions := subscriptions - 1;
      }
      subscriptions := subscriptions + 1;
      currentSsid := ssid;
    }

    /**
     * `OnNetworkChanged`, after its one-second delay, with `isNowConnected` the interface probe's
     * answer: the flag follows the probe, and the callback runs exactly when the link was up and is
     * now down.
     */
    method OnNetworkChanged(isNowConnected: bool) returns (fired: bool)
      modifies this`isConnected, this`callbacks
      ensures isConnected == isNowConnected
      ensures fired <==> old(isConnected) && !isNowConnected
      ensures callbacks == old(callbacks) + if fired then 1 else 0
    {
      fired := false;
      if !isNowConnected && isConnected {
        isConnected := false;
        fired := true;
        callbacks := callbacks + 1;
      } else if isNowConnected && !isConnected {
        isConnected := true;
      }
    }

    /** `Dispose`: detach the handler. */
    method Dispose()
      requires Valid()
      modifies this`subscriptions
      ensures Valid()
      ensures subscriptions == 0
    {
      if subscriptions > 0 {
        subscriptions := subscriptions - 1;
      }
    }
  }

  /**
   * A run of address-change events, each handled by `OnNetworkChanged` with its probe's answer in
   * `observations`: the monitor ends in `LastState`, and the callback has run once per up-to-down
   * change, `FallingEdges` times.
   */
  method ReplayNetworkChanges(m: NetworkMonitor, observations: seq<bool>) returns (fired: nat)
    modifies m`isConnected, m`callbacks
    ensures m.isConnected == LastState(old(m.isConnected), observations)
    ensures fired == FallingEdges(old(m.isConnected), observations)
    ensures m.callbacks == old(m.callbacks) + fired
  {
    ghost var initial := m.isConnected;
    fired := 0;
    for i := 0 to |observations|
      invariant m.isConnected == LastState(initial, observations[..i])
      invariant fired == FallingEdges(initial, observations[..i])
      invariant m.callbacks == old(m.callbacks) + fired
    {
      FallingEdgesStep(initial, observations[..i], observations[i]);
      assert observations[..i + 1] == observations[..i] + [observations[i]];
      var firedNow := m.OnNetworkChanged(observations[i]);
      if firedNow {
        fired := fired + 1;
      }
    }
    assert observations[..|observations|] == observations;
  }
}
