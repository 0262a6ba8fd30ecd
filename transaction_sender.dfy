/**
 * The reward sender: pick the network from the mode flag, refuse to start
 * unless the wallet holds at least twelve stipends, then send one token
 * transfer per reward, strictly in order, with consecutive nonces starting at
 * the wallet's transaction count, pausing twenty seconds after each.
 *
 * The chain is a `Runtime` object: its oracles answer the balance and
 * transaction-count queries and decide whether a transfer call is accepted or
 * throws, and its `effects` log records every transfer call and every pause
 * in the order they happen.
 */
module TransactionSender {
  import opened Wrappers
  import opened JsText

  /** A reward instruction: the amount is in the token's smallest unit. */
  datatype Transaction = Transaction(recipient: string, amount: nat)

  /** The configuration entries the sender reads. */
  datatype SenderConfig = SenderConfig(
    txNetworkId: string,
    txTestNetworkId: string,
    gnosisRpc: string,
    txTestProvider: string,
    pnk: string,
    testPnk: string)

  /** The network a run talks to: network id (`None` for `NaN`), RPC endpoint and token contract. */
  datatype Network = Network(networkId: Option<nat>, providerUrl: string, tokenAddress: string)

  /** One `transfer(recipient, amount, { nonce })` call on the token contract of `network`. */
  datatype TransferCall = TransferCall(network: Network, recipient: string, amount: nat, nonce: nat)

  /** What the sender does to the outside world: a transfer call, or a pause of some milliseconds. */
  datatype Effect = Sent(call: TransferCall) | Waited(millis: int)

  /**
   * Why a run stops: the balance could not be displayed (`humanizeAmount`
   * throws before the guard is reached), the balance is below twelve
   * stipends, or the transfer of reward `index` threw.
   */
  datatype SendError = BalanceDisplayFailed | BalanceLowerThanStipend | TransferFailed(index: nat)

  /** The balance must cover this many stipends before any transfer is sent. */
  const StipendMultiplier: int := 12
  /** The pause after each transfer, in seconds. */
  const TransferPause: int := 20
  /** `humanizeAmount` divides by 10^15 first, so its integer part counts thousandths of a token. */
  const MilliTokenUnits: nat := 1_000_000_000_000_000
  /** `BigNumber.toNumber` throws from 2^53 on. */
  const SafeIntegerLimit: nat := 0x20_0000_0000_0000

  /**
   * `humanizeAmount` short of its final floating-point division by 1000: the
   * amount in whole thousandths of a token, or `None` where it throws. It throws
   * on a missing value (`div` on `undefined` is a TypeError) and on a quotient
   * too large for `toNumber`.
   */
  function HumanizeAmount(bn: Option<nat>): (milli: Option<nat>)
    ensures milli.Some? <==> bn.Some? && bn.value < SafeIntegerLimit * MilliTokenUnits
    ensures milli.Some? ==> milli.value * MilliTokenUnits <= bn.value < (milli.value + 1) * MilliTokenUnits
  {
    if bn.None? || bn.value / MilliTokenUnits >= SafeIntegerLimit then None
    else Some(bn.value / MilliTokenUnits)
  }

  /**
   * `Math.floor(min + random * (max - min))` for a draw `random` of
   * `Math.random()`, computed exactly: an integer in `[min, max)`.
   */
  function RandomBetween(min: int, max: int, random: real): (r: int)
    requires 0.0 <= random < 1.0
    ensures min < max ==> min <= r < max
    ensures min == max ==> r == min
  {
    var x := min as real + random * (max - min) as real;
    assert min < max ==> random * (max - min) as real < (max - min) as real;
    x.Floor
  }

  /** Every integer of `[min, max)` is drawn by some `random`. */
  lemma RandomBetweenReaches(min: int, max: int, k: int)
    requires min <= k < max
    ensures exists random: real :: 0.0 <= random < 1.0 && RandomBetween(min, max, random) == k
  {
    var random := (k - min) as real / (max - min) as real;
    assert random * (max - min) as real == (k - min) as real;
    assert (min as real + (k - min) as real).Floor == k;
    assert RandomBetween(min, max, random) == k;
  }

  /**
   * The number of seconds `sleep(seconds)` waits: exactly `seconds` when it is
   * not zero, otherwise a draw from `[2, 5)`.
   */
  function SleepSeconds(seconds: int, random: real): (r: int)
    requires 0.0 <= random < 1.0
    ensures seconds != 0 ==> r == seconds
    ensures seconds == 0 ==> 2 <= r < 5
  {
    if seconds == 0 then RandomBetween(2, 5, random) else seconds
  }

  /** Each of 2, 3 and 4 seconds is a possible default pause. */
  lemma SleepDefaultReaches(k: int)
    requires 2 <= k < 5
    ensures exists random: real :: 0.0 <= random < 1.0 && SleepSeconds(0, random) == k
  {
    RandomBetweenReaches(2, 5, k);
    var random: real :| 0.0 <= random < 1.0 && RandomBetween(2, 5, random) == k;
    assert SleepSeconds(0, random) == k;
  }

  /** The chain and clock the sender acts on. */
  class Runtime {
    /** `balanceOf(wallet)` on the token contract of a network; `None` when no balance comes back. */
    const balanceOf: Network -> Option<nat>
    /** `wallet.getTransactionCount()` on a network. */
    const transactionCount: Network -> nat
    /** Whether a transfer call is accepted (`true`) or throws (`false`). */
    const accepts: TransferCall -> bool
    /** Everything sent and waited so far, oldest first. */
    var effects: seq<Effect>

    constructor (balanceOf: Network -> Option<nat>, transactionCount: Network -> nat, accepts: TransferCall -> bool)
      ensures this.balanceOf == balanceOf && this.transactionCount == transactionCount && this.accepts == accepts
      ensures effects == []
    {
      this.balanceOf := balanceOf;
      this.transactionCount := transactionCount;
      this.accepts := accepts;
      effects := [];
    }

    /** Submit a transfer call; it is recorded whether or not it throws. */
    method Transfer(call: TransferCall) returns (ok: bool)
      modifies this
      ensures effects == old(effects) + [Sent(call)]
      ensures ok == accepts(call)
    {
      effects := effects + [Sent(call)];
      ok := accepts(call);
    }

    /** `setTimeout(resolve, millis)`. */
    method Wait(millis: int)
      modifies this
      ensures effects == old(effects) + [Waited(millis)]
    {
      effects := effects + [Waited(millis)];
    }
  }

  /** `sleep(seconds)`: wait the chosen number of seconds; `Math.random` is a free choice in `[0, 1)`. */
  method Sleep(rt: Runtime, seconds: int) returns (waited: int)
    modifies rt
    ensures seconds != 0 ==> waited == seconds
    ensures seconds == 0 ==> 2 <= waited < 5
    ensures rt.effects == old(rt.effects) + [Waited(waited * 1000)]
  {
    var random: real :| 0.0 <= random < 1.0;
    waited := SleepSeconds(seconds, random);
    rt.Wait(waited * 1000);
  }

  /** `sendReward`: one transfer of the reward's amount to its recipient, with the given nonce. */
  method SendReward(r: Transaction, nonce: nat, network: Network, rt: Runtime) returns (ok: bool)
    modifies rt
    ensures rt.effects == old(rt.effects) + [Sent(TransferCall(network, r.recipient, r.amount, nonce))]
    ensures ok == rt.accepts(TransferCall(network, r.recipient, r.amount, nonce))
  {
    ok := rt.Transfer(TransferCall(network, r.recipient, r.amount, nonce));
  }

  function ProductionNetwork(conf: SenderConfig): Network
  {
    Network(JsNumber(conf.txNetworkId), conf.gnosisRpc, conf.pnk)
  }

  function TestNetwork(conf: SenderConfig): Network
  {
    Network(JsNumber(conf.txTestNetworkId), conf.txTestProvider, conf.testPnk)
  }

  /** The network id, RPC endpoint and token address chosen by the mode flag. */
  function SelectNetwork(node: string, conf: SenderConfig): (network: Network)
    ensures node == "production" ==> network == ProductionNetwork(conf)
    ensures node != "production" ==> network == TestNetwork(conf)
  {
    Network(
      if node == "production" then JsNumber(conf.txNetworkId) else JsNumber(conf.txTestNetworkId),
      if node == "production" then conf.gnosisRpc else conf.txTestProvider,
      if node == "production" then conf.pnk else conf.testPnk)
  }

  /** Only the exact flag `production` reaches the production network, whenever the two networks differ. */
  lemma OnlyExactFlagSelectsProduction(node: string, conf: SenderConfig)
    requires ProductionNetwork(conf) != TestNetwork(conf)
    ensures SelectNetwork(node, conf) == ProductionNetwork(conf) <==> node == "production"
  {
  }

  /** The balance guard: a balance must be present and at least twelve stipends. */
  function BalanceSufficient(balance: Option<nat>, stipend: int): (ok: bool)
    ensures ok <==> balance.Some? && balance.value >= StipendMultiplier * stipend
  {
    !(balance.None? || balance.value < stipend * StipendMultiplier)
  }

  /** Exactly twelve stipends passes; one unit less does not. */
  lemma BalanceBoundary(stipend: int)
    requires stipend >= 0
    ensures BalanceSufficient(Some(12 * stipend), stipend)
    ensures stipend > 0 ==> !BalanceSufficient(Some(12 * stipend - 1), stipend)
  {
  }

  /** The transfer calls for `rewards` in order, numbered with consecutive nonces from `nonce`. */
  function RewardCalls(rewards: seq<Transaction>, network: Network, nonce: nat): (calls: seq<TransferCall>)
    ensures |calls| == |rewards|
    ensures forall i :: 0 <= i < |rewards| ==>
      calls[i] == TransferCall(network, rewards[i].recipient, rewards[i].amount, nonce + i)
  {
    seq(|rewards|, i requires 0 <= i < |rewards| => TransferCall(network, rewards[i].recipient, rewards[i].amount, nonce + i))
  }

  /** The position of the first call that throws, if any. */
  function FirstRejected(calls: seq<TransferCall>, accepts: TransferCall -> bool): (k: Option<nat>)
    ensures k.None? ==> forall i :: 0 <= i < |calls| ==> accepts(calls[i])
    ensures k.Some? ==> k.value < |calls| && !accepts(calls[k.value])
    ensures k.Some? ==> forall i :: 0 <= i < k.value ==> accepts(calls[i])
    decreases |calls|
  {
    if calls == [] then None
    else if !accepts(calls[0]) then Some(0)
    else match FirstRejected(calls[1..], accepts)
      case None => None
      case Some(k) => Some(k + 1)
  }

  /** A rejected call preceded only by accepted ones is the first rejected call. */
  lemma FirstRejectedAt(calls: seq<TransferCall>, accepts: TransferCall -> bool, i: nat)
    requires i < |calls| && !accepts(calls[i])
    requires forall j :: 0 <= j < i ==> accepts(calls[j])
    ensures FirstRejected(calls, accepts) == Some(i)
  {
  }

  /** The effects of the transfer loop: each call, then a pause if it was accepted; the first throw ends it. */
  function TransferEffects(calls: seq<TransferCall>, accepts: TransferCall -> bool): seq<Effect>
    decreases |calls|
  {
    if calls == [] then []
    else [Sent(calls[0])] + if accepts(calls[0]) then [Waited(TransferPause * 1000)] + TransferEffects(calls[1..], accepts) else []
  }

  /** One turn of the transfer loop, seen from position `i`. */
  lemma TransferEffectsFrom(calls: seq<TransferCall>, accepts: TransferCall -> bool, i: nat)
    requires i < |calls|
    ensures TransferEffects(calls[i..], accepts) ==
      [Sent(calls[i])] + if accepts(calls[i]) then [Waited(TransferPause * 1000)] + TransferEffects(calls[i + 1..], accepts) else []
  {
    assert calls[i..][0] == calls[i] && calls[i..][1..] == calls[i + 1..];
  }

  /** The log after the first `n` calls were all accepted: each call followed by its pause. */
  function AcceptedEffects(calls: seq<TransferCall>, n: nat): seq<Effect>
    requires n <= |calls|
  {
    if n == 0 then [] else AcceptedEffects(calls, n - 1) + [Sent(calls[n - 1]), Waited(TransferPause * 1000)]
  }

  /** After `n` accepted calls, the loop's effects are those of the accepted prefix followed by the rest. */
  lemma {:induction false} TransferEffectsSplit(calls: seq<TransferCall>, accepts: TransferCall -> bool, n: nat)
    requires n <= |calls|
    requires forall j :: 0 <= j < n ==> accepts(calls[j])
    ensures TransferEffects(calls, accepts) == AcceptedEffects(calls, n) + TransferEffects(calls[n..], accepts)
    decreases n
  {
    if n == 0 {
      assert calls[0..] == calls;
    } else {
      TransferEffectsSplit(calls, accepts, n - 1);
      TransferEffectsFrom(calls, accepts, n - 1);
      assert calls[n - 1..][1..] == calls[n..];
    }
  }

  /** The loop stopped at the first throw, at position `i`. */
  lemma TransferEffectsStopAt(calls: seq<TransferCall>, accepts: TransferCall -> bool, i: nat)
    requires i < |calls| && !accepts(calls[i])
    requires forall j :: 0 <= j < i ==> accepts(calls[j])
    ensures TransferEffects(calls, accepts) == AcceptedEffects(calls, i) + [Sent(calls[i])]
    ensures FirstRejected(calls, accepts) == Some(i)
  {
    TransferEffectsSplit(calls, accepts, i);
    TransferEffectsFrom(calls, accepts, i);
    FirstRejectedAt(calls, accepts, i);
  }

  /** The loop ran to the end with every call accepted. */
  lemma TransferEffectsComplete(calls: seq<TransferCall>, accepts: TransferCall -> bool)
    requires forall j :: 0 <= j < |calls| ==> accepts(calls[j])
    ensures TransferEffects(calls, accepts) == AcceptedEffects(calls, |calls|)
    ensures FirstRejected(calls, accepts) == None
  {
    TransferEffectsSplit(calls, accepts, |calls|);
    assert calls[|calls|..] == [];
  }

  /** The transfer calls recorded in a log of effects, in order. */
  function SentCalls(effects: seq<Effect>): seq<TransferCall>
    decreases |effects|
  {
    if effects == [] then []
    else (if effects[0].Sent? then [effects[0].call] else []) + SentCalls(effects[1..])
  }

  lemma {:induction false} SentCallsConcat(a: seq<Effect>, b: seq<Effect>)
    ensures SentCalls(a + b) == SentCalls(a) + SentCalls(b)
    decreases |a|
  {
    if a != [] {
      assert (a + b)[1..] == a[1..] + b;
      SentCallsConcat(a[1..], b);
    } else {
      assert a + b == b;
    }
  }

  /** How many transfer calls the loop issues: all of them, or up to and including the first that throws. */
  function IssuedCount(calls: seq<TransferCall>, accepts: TransferCall -> bool): nat
  {
    match FirstRejected(calls, accepts)
    case None => |calls|
    case Some(k) => k + 1
  }

  /** The loop issues exactly the calls up to the first throw, in order, and nothing after it. */
  lemma {:induction false} SentCallsOfTransferEffects(calls: seq<TransferCall>, accepts: TransferCall -> bool)
    ensures IssuedCount(calls, accepts) <= |calls|
    ensures SentCalls(TransferEffects(calls, accepts)) == calls[..IssuedCount(calls, accepts)]
    decreases |calls|
  {
    if calls != [] {
      var c := calls[0];
      if accepts(c) {
        SentCallsOfTransferEffects(calls[1..], accepts);
        var tail := TransferEffects(calls[1..], accepts);
        SentCallsConcat([Sent(c)], [Waited(TransferPause * 1000)] + tail);
        SentCallsConcat([Waited(TransferPause * 1000)], tail);
        assert SentCalls([Waited(TransferPause * 1000)]) == [];
        assert IssuedCount(calls, accepts) == IssuedCount(calls[1..], accepts) + 1;
        assert calls[..IssuedCount(calls, accepts)] == [c] + calls[1..][..IssuedCount(calls[1..], accepts)];
      } else {
        assert TransferEffects(calls, accepts) == [Sent(c)];
        assert SentCalls([Sent(c)]) == [c] + SentCalls([]);
      }
    }
  }

  /** When every call is accepted, the log alternates each call with a twenty-second pause. */
  lemma {:induction false} TransferEffectsAllAccepted(calls: seq<TransferCall>, accepts: TransferCall -> bool)
    requires FirstRejected(calls, accepts).None?
    ensures |TransferEffects(calls, accepts)| == 2 * |calls|
    ensures forall j :: 0 <= j < 2 * |calls| ==>
      TransferEffects(calls, accepts)[j] == if j % 2 == 0 then Sent(calls[j / 2]) else Waited(TransferPause * 1000)
    decreases |calls|
  {
    if calls != [] {
      assert accepts(calls[0]);
      var rest := calls[1..];
      assert FirstRejected(rest, accepts).None? by {
        assert forall i :: 0 <= i < |rest| ==> accepts(rest[i]) by {
          forall i | 0 <= i < |rest| ensures accepts(rest[i]) { assert rest[i] == calls[i + 1]; }
        }
      }
      TransferEffectsAllAccepted(rest, accepts);
      var e := TransferEffects(calls, accepts);
      var tail := TransferEffects(rest, accepts);
      assert e == [Sent(calls[0]), Waited(TransferPause * 1000)] + tail;
      forall j | 2 <= j < 2 * |calls|
        ensures e[j] == if j % 2 == 0 then Sent(calls[j / 2]) else Waited(TransferPause * 1000)
      {
        assert e[j] == tail[j - 2];
        assert (j - 2) / 2 == j / 2 - 1 && (j - 2) % 2 == j % 2;
        assert rest[(j - 2) / 2] == calls[j / 2];
      }
    }
  }

  /**
   * The transfers of a batch: the i-th issued call pays the i-th reward its
   * amount, unchanged, with nonce `nonce + i`; at most one call per reward is
   * issued, and one for every reward when none throws.
   */
  lemma NonceSequence(rewards: seq<Transaction>, network: Network, nonce: nat, accepts: TransferCall -> bool)
    ensures var sent := SentCalls(TransferEffects(RewardCalls(rewards, network, nonce), accepts));
      && |sent| <= |rewards|
      && (forall i :: 0 <= i < |sent| ==>
            sent[i] == TransferCall(network, rewards[i].recipient, rewards[i].amount, nonce + i))
      && (FirstRejected(RewardCalls(rewards, network, nonce), accepts).None? ==> |sent| == |rewards|)
      && (FirstRejected(RewardCalls(rewards, network, nonce), accepts).Some? ==>
            |sent| == FirstRejected(RewardCalls(rewards, network, nonce), accepts).value + 1)
  {
    SentCallsOfTransferEffects(RewardCalls(rewards, network, nonce), accepts);
  }

  /**
   * The loop of `sendAllRewards`: transfer each reward in order with nonces
   * counting up from `nonce`, pausing twenty seconds after each, until a
   * transfer throws, which ends the loop with that reward's index.
   */
  method SendRewardsFrom(rewards: seq<Transaction>, nonce: nat, network: Network, rt: Runtime)
    returns (outcome: Outcome<SendError>)
    modifies rt
    ensures var calls := RewardCalls(rewards, network, nonce);
      && rt.effects == old(rt.effects) + TransferEffects(calls, rt.accepts)
      && outcome == match FirstRejected(calls, rt.accepts)
                    case None => Pass
                    case Some(k) => Fail(TransferFailed(k))
  {
    ghost var calls := RewardCalls(rewards, network, nonce);
    ghost var start := rt.effects;
    ghost var accepts := rt.accepts;
    var next := nonce;
    for i := 0 to |rewards|
      invariant next == nonce + i
      invariant forall j :: 0 <= j < i ==> accepts(calls[j])
      invariant rt.effects == start + AcceptedEffects(calls, i)
    {
      ghost var done := AcceptedEffects(calls, i);
      assert calls[i] == TransferCall(network, rewards[i].recipient, rewards[i].amount, next);
      var ok := SendReward(rewards[i], next, network, rt);
      if !ok {
        TransferEffectsStopAt(calls, accepts, i);
        assert rt.effects == start + (done + [Sent(calls[i])]);
        return Fail(TransferFailed(i));
      }
      var _ := Sleep(rt, TransferPause);
      assert AcceptedEffects(calls, i + 1) == done + [Sent(calls[i]), Waited(TransferPause * 1000)];
      assert rt.effects == start + (done + [Sent(calls[i]), Waited(TransferPause * 1000)]);
      next := next + 1;
    }
    TransferEffectsComplete(calls, accepts);
    outcome := Pass;
  }

  /**
   * `sendAllRewards`: when the balance cannot be displayed, or is too low,
   * nothing is sent. A missing balance already fails at the display, so the
   * guard's own test for it never decides. Otherwise the transfers of
   * `RewardCalls` from the current transaction count are issued in order, each
   * followed by a twenty-second pause, until one throws, which ends the run
   * with that reward's index.
   */
  method SendAllRewards(rewards: seq<Transaction>, stipend: int, node: string, conf: SenderConfig, rt: Runtime)
    returns (outcome: Outcome<SendError>)
    modifies rt
    ensures var network := SelectNetwork(node, conf);
      var calls := RewardCalls(rewards, network, rt.transactionCount(network));
      if HumanizeAmount(rt.balanceOf(network)).None? then
        outcome == Fail(BalanceDisplayFailed) && rt.effects == old(rt.effects)
      else if !BalanceSufficient(rt.balanceOf(network), stipend) then
        outcome == Fail(BalanceLowerThanStipend) && rt.effects == old(rt.effects)
      else
        && rt.effects == old(rt.effects) + TransferEffects(calls, rt.accepts)
        && outcome == match FirstRejected(calls, rt.accepts)
                      case None => Pass
                      case Some(k) => Fail(TransferFailed(k))
  {
    var network := SelectNetwork(node, conf);
    var balance := rt.balanceOf(network);
    if HumanizeAmount(balance).None? {
      return Fail(BalanceDisplayFailed);
    }
    if balance.None? || balance.value < stipend * StipendMultiplier {
      return Fail(BalanceLowerThanStipend);
    }
    var nonce := rt.transactionCount(network);
    outcome := SendRewardsFrom(rewards, nonce, network, rt);
  }
}
