/** The proof of an external withdrawal from a mined receipt (external_withdrawal_settlement.py).

    Hex texts are modelled as the bytes they spell; a text that spells none is absent. The
    selectors and event topics are Keccak hashes, here parameters. */
module Withdrawal {
  import opened Outcomes
  import opened AbiWords
  import Ordering

  type Address = seq<byte>

  /** A topic text: hexadecimal with or without its prefix, or something else. */
  datatype Topic = Hex(prefixed: bool, bytes: seq<byte>) | NotHex

  datatype Log = Log(address: Option<Address>, topics: seq<Topic>, data: seq<byte>)

  datatype Signatures = Signatures(withdraw: seq<byte>, convert: seq<byte>, withdrawal: seq<byte>, converted: seq<byte>)

  /** The four hashes have their lengths and differ where the code tells them apart. */
  predicate Proper(s: Signatures) {
    && |s.withdraw| == 4 && |s.convert| == 4 && s.withdraw != s.convert
    && |s.withdrawal| == 32 && |s.converted| == 32 && s.withdrawal != s.converted
  }

  datatype Reason = InvalidIdentity | InvalidCalldata | UnsupportedCalldata | InvalidArguments | DestinationMismatch
                  | InvalidAmount | EventMissing | EventAmbiguous | EventMismatch

  datatype Effect = Effect(converted: bool, tokenIn: Address, tokenOut: Address, amountIn: nat, amountOut: nat,
                           minOut: nat)

  datatype Verdict = Proven(effect: Effect) | Rejected(reason: Reason)

  // ------------------------------------------------------------------------- words

  function UintWord(data: seq<byte>, index: nat): Option<nat> {
    if |data| < 32 * index + 32 then None else Some(FromBytes(data[32 * index..32 * index + 32]))
  }

  /** The low twenty bytes. */
  function WordAddress(word: nat): Address { Word(word)[12..] }

  function TopicAddress(t: Topic): Option<Address> {
    if t.Hex? && |t.bytes| == 32 then Some(t.bytes[12..]) else None
  }

  function CalldataWords(raw: seq<byte>, count: nat): Option<seq<nat>> {
    if |raw| < 4 + 32 * count then None
    else Some(seq(count, i requires 0 <= i < count => FromBytes(raw[4 + 32 * i..36 + 32 * i])))
  }

  // -------------------------------------------------------------------------- logs

  predicate IsEvent(t: Topic, signature: seq<byte>) { t.Hex? && t.prefixed && t.bytes == signature }

  function EventSignature(s: Signatures, converted: bool): seq<byte> { if converted then s.converted else s.withdrawal }

  /** The topic that carries the destination, by event. */
  function DestinationTopic(s: Signatures, t: Topic): Option<nat> {
    if IsEvent(t, s.converted) then Some(3) else if IsEvent(t, s.withdrawal) then Some(2) else None
  }

  predicate MatchesDestination(s: Signatures, log: Log, executor: Address, destination: Address) {
    && log.address == Some(executor)
    && log.topics != []
    && var index := DestinationTopic(s, log.topics[0]);
       index.Some? && |log.topics| > index.value && TopicAddress(log.topics[index.value]) == Some(destination)
  }

  function Filter(p: Log -> bool, xs: seq<Log>): (r: seq<Log>)
    ensures forall x :: x in r <==> x in xs && p(x)
  {
    if xs == [] then []
    else
      assert xs == [xs[0]] + xs[1..];
      (if p(xs[0]) then [xs[0]] else []) + Filter(p, xs[1..])
  }

  function ForDestination(s: Signatures, executor: Address, destination: Address): Log -> bool {
    (log: Log) => MatchesDestination(s, log, executor, destination)
  }

  function OfEvent(signature: seq<byte>): Log -> bool {
    (log: Log) => log.topics != [] && IsEvent(log.topics[0], signature)
  }

  function EventLog(s: Signatures, logs: seq<Log>, executor: Address, destination: Address, signature: seq<byte>,
                    destinationIndex: nat): Result<Log>
  {
    var matches := Filter(OfEvent(signature), Filter(ForDestination(s, executor, destination), logs));
    if |matches| != 1 then Failure(if matches != [] then EventAmbiguous else EventMissing)
    else if |matches[0].topics| <= destinationIndex then Failure(EventMissing)
    else Success(matches[0])
  }

  datatype Result<+T> = Success(value: T) | Failure(reason: Reason)

  // ------------------------------------------------------------------ the decoder

  datatype Expected = Expected(tokenIn: Address, tokenOut: Address, amountIn: nat, minOut: nat)

  function WithdrawalInputs(raw: seq<byte>, destination: Address, converted: bool): Result<Expected> {
    var words := CalldataWords(raw, if converted then 7 else 3);
    if words.None? then Failure(InvalidArguments)
    else
      var w := words.value;
      if WordAddress(w[if converted then 4 else 1]) != destination then Failure(DestinationMismatch)
      else if w[2] == 0 then Failure(InvalidAmount)
      else if converted then Success(Expected(WordAddress(w[0]), WordAddress(w[1]), w[2], w[3]))
      else Success(Expected(WordAddress(w[0]), WordAddress(w[0]), w[2], 0))
  }

  function BuildConvertEffect(e: Expected, log: Log): Verdict
    requires |log.topics| > 3
  {
    var amountIn, amountOut := UintWord(log.data, 0), UintWord(log.data, 1);
    if && TopicAddress(log.topics[1]) == Some(e.tokenIn) && TopicAddress(log.topics[2]) == Some(e.tokenOut)
       && amountIn == Some(e.amountIn) && amountOut.Some? && amountOut.value >= e.minOut && amountOut.value > 0
    then Proven(Effect(true, e.tokenIn, e.tokenOut, e.amountIn, amountOut.value, e.minOut))
    else Rejected(EventMismatch)
  }

  function BuildWithdrawEffect(e: Expected, log: Log): Verdict
    requires |log.topics| > 2
  {
    if TopicAddress(log.topics[1]) != Some(e.tokenIn) || UintWord(log.data, 0) != Some(e.amountIn)
    then Rejected(EventMismatch)
    else Proven(Effect(false, e.tokenIn, e.tokenIn, e.amountIn, e.amountIn, 0))
  }

  function CalldataKind(s: Signatures, calldata: Option<seq<byte>>): Result<bool> {
    if calldata.None? || |calldata.value| < 4 then Failure(InvalidCalldata)
    else if calldata.value[..4] == s.withdraw then Success(false)
    else if calldata.value[..4] == s.convert then Success(true)
    else Failure(UnsupportedCalldata)
  }

  function DecodeKnown(s: Signatures, logs: seq<Log>, executor: Address, raw: seq<byte>, destination: Address,
                       converted: bool): Verdict
  {
    var inputs := WithdrawalInputs(raw, destination, converted);
    if inputs.Failure? then Rejected(inputs.reason)
    else
      var log := EventLog(s, logs, executor, destination, EventSignature(s, converted),
                          if converted then 3 else 2);
      if log.Failure? then Rejected(log.reason)
      else if converted then BuildConvertEffect(inputs.value, log.value)
      else BuildWithdrawEffect(inputs.value, log.value)
  }

  function DecodeExternalWithdrawalEffect(s: Signatures, logs: seq<Log>, executor: Option<Address>,
                                          calldata: Option<seq<byte>>, destination: Option<Address>): Verdict
  {
    if executor.None? || destination.None? then Rejected(InvalidIdentity)
    else
      var kind := CalldataKind(s, calldata);
      if kind.Failure? then Rejected(kind.reason)
      else DecodeKnown(s, logs, executor.value, calldata.value, destination.value, kind.value)
  }

  // --------------------------------------------------------------- what a proof means

  /** Bytes 32i..32i+32 of the arguments. */
  function ArgumentAt(raw: seq<byte>, i: nat): seq<byte>
    requires |raw| >= 36 + 32 * i
  {
    raw[4 + 32 * i..36 + 32 * i]
  }

  /** The log is the executor's event of the expected kind for the destination. */
  predicate IsEffectLog(s: Signatures, log: Log, executor: Address, destination: Address, converted: bool) {
    var index := if converted then 3 else 2;
    && log.address == Some(executor)
    && |log.topics| > index
    && IsEvent(log.topics[0], EventSignature(s, converted))
    && TopicAddress(log.topics[index]) == Some(destination)
  }

  predicate DataWordIs(data: seq<byte>, i: nat, n: nat) {
    |data| >= 32 * i + 32 && FromBytes(data[32 * i..32 * i + 32]) == n
  }

  /** The calldata asks for this effect: every field is read straight from its bytes. */
  predicate Asks(s: Signatures, raw: seq<byte>, destination: Address, e: Effect) {
    && |raw| >= 4 && raw[..4] == (if e.converted then s.convert else s.withdraw)
    && |raw| >= (if e.converted then 228 else 100)
    && ArgumentAt(raw, if e.converted then 4 else 1)[12..] == destination
    && e.tokenIn == ArgumentAt(raw, 0)[12..]
    && e.tokenOut == ArgumentAt(raw, if e.converted then 1 else 0)[12..]
    && e.amountIn == FromBytes(ArgumentAt(raw, 2)) && e.amountIn > 0
    && e.minOut == if e.converted then FromBytes(ArgumentAt(raw, 3)) else 0
  }

  /** The log reports this effect. */
  predicate Reports(log: Log, e: Effect) {
    && |log.topics| > 2
    && TopicAddress(log.topics[1]) == Some(e.tokenIn)
    && DataWordIs(log.data, 0, e.amountIn)
    && (if e.converted then
          && TopicAddress(log.topics[2]) == Some(e.tokenOut)
          && DataWordIs(log.data, 1, e.amountOut) && e.amountOut >= e.minOut && e.amountOut > 0
        else e.amountOut == e.amountIn)
  }

  /** Exactly one log of the receipt is the executor's event, and it reports the effect. */
  ghost predicate ReportedOnce(s: Signatures, logs: seq<Log>, executor: Address, destination: Address, e: Effect) {
    exists i: nat :: OnlyEffectLog(s, logs, executor, destination, e.converted, i) && Reports(logs[i], e)
  }

  ghost predicate OnlyEffectLog(s: Signatures, logs: seq<Log>, executor: Address, destination: Address, converted: bool,
                                i: nat) {
    && i < |logs| && IsEffectLog(s, logs[i], executor, destination, converted)
    && forall j | 0 <= j < |logs| && IsEffectLog(s, logs[j], executor, destination, converted) :: j == i
  }

  // ------------------------------------------------------------------------- proofs

  /** Filtering keeps exactly one element when exactly one position passes. */
  lemma {:induction false} FilterOne(p: Log -> bool, xs: seq<Log>)
    ensures |Filter(p, xs)| == 1 <==> exists i: nat :: OnlyAt(p, xs, i)
    ensures |Filter(p, xs)| == 0 <==> forall i | 0 <= i < |xs| :: !p(xs[i])
    ensures forall i: nat | OnlyAt(p, xs, i) :: Filter(p, xs) == [xs[i]]
  {
    if xs != [] {
      FilterOne(p, xs[1..]);
      var rest := xs[1..];
      assert forall i | 0 <= i < |rest| :: rest[i] == xs[i + 1];
      assert forall i | 0 < i < |xs| :: xs[i] == rest[i - 1];
      forall i: nat | OnlyAt(p, xs, i) ensures Filter(p, xs) == [xs[i]] {
        if i > 0 {
          assert OnlyAt(p, rest, i - 1);
        }
      }
      if |Filter(p, xs)| == 1 {
        if p(xs[0]) {
          assert OnlyAt(p, xs, 0);
        } else {
          var i: nat :| OnlyAt(p, rest, i);
          assert OnlyAt(p, xs, i + 1);
        }
      }
    }
  }

  ghost predicate OnlyAt(p: Log -> bool, xs: seq<Log>, i: nat) {
    i < |xs| && p(xs[i]) && forall j | 0 <= j < |xs| && p(xs[j]) :: j == i
  }

  lemma {:induction false} FilterTwice(p: Log -> bool, q: Log -> bool, both: Log -> bool, xs: seq<Log>)
    requires forall x | x in xs :: both(x) <==> p(x) && q(x)
    ensures Filter(q, Filter(p, xs)) == Filter(both, xs)
  {
    if xs != [] {
      assert xs[0] in xs && forall x | x in xs[1..] :: x in xs;
      FilterTwice(p, q, both, xs[1..]);
      var rest := Filter(p, xs[1..]);
      if p(xs[0]) {
        assert ([xs[0]] + rest)[1..] == rest;
      } else {
        assert [] + rest == rest;
      }
    }
  }

  function IsEffect(s: Signatures, executor: Address, destination: Address, converted: bool): Log -> bool {
    (log: Log) => IsEffectLog(s, log, executor, destination, converted)
  }

  lemma SelectedLogs(s: Signatures, logs: seq<Log>, executor: Address, destination: Address, converted: bool)
    requires Proper(s)
    ensures Filter(OfEvent(EventSignature(s, converted)), Filter(ForDestination(s, executor, destination), logs))
         == Filter(IsEffect(s, executor, destination, converted), logs)
  {
    FilterTwice(ForDestination(s, executor, destination), OfEvent(EventSignature(s, converted)),
                IsEffect(s, executor, destination, converted), logs);
  }

  /** The two filters of the decoder leave exactly the effect logs. */
  lemma EventLogSelects(s: Signatures, logs: seq<Log>, executor: Address, destination: Address, converted: bool)
    requires Proper(s)
    ensures var found := EventLog(s, logs, executor, destination, EventSignature(s, converted),
                                  if converted then 3 else 2);
            && (found.Success? <==> exists i: nat :: OnlyEffectLog(s, logs, executor, destination, converted, i))
            && (forall i: nat | OnlyEffectLog(s, logs, executor, destination, converted, i) ::
                found == Success(logs[i]))
            && (found == Failure(EventMissing) <==>
                  forall i | 0 <= i < |logs| :: !IsEffectLog(s, logs[i], executor, destination, converted))
  {
    var both := IsEffect(s, executor, destination, converted);
    SelectedLogs(s, logs, executor, destination, converted);
    FilterOne(both, logs);
    forall i: nat ensures OnlyAt(both, logs, i) <==> OnlyEffectLog(s, logs, executor, destination, converted, i) {
    }
    var matches := Filter(both, logs);
    assert |matches| == 1 ==> matches[0] in matches;
  }

  // ---------------------------------------------------------------------- theorems

  lemma ArgumentWord(raw: seq<byte>, count: nat, i: nat)
    requires |raw| >= 4 + 32 * count && i < count
    ensures CalldataWords(raw, count).value[i] == FromBytes(ArgumentAt(raw, i))
    ensures WordAddress(CalldataWords(raw, count).value[i]) == ArgumentAt(raw, i)[12..]
  {
    ToFrom(ArgumentAt(raw, i));
  }

  lemma ConvertInputsMeanAsks(s: Signatures, raw: seq<byte>, destination: Address, e: Effect)
    requires |raw| >= 4 && e.converted && raw[..4] == s.convert
    ensures Asks(s, raw, destination, e)
       <==> WithdrawalInputs(raw, destination, true) == Success(Expected(e.tokenIn, e.tokenOut, e.amountIn, e.minOut))
  {
    if |raw| >= 228 {
      ArgumentWord(raw, 7, 0);
      ArgumentWord(raw, 7, 1);
      ArgumentWord(raw, 7, 2);
      ArgumentWord(raw, 7, 3);
      ArgumentWord(raw, 7, 4);
    }
  }

  lemma WithdrawInputsMeanAsks(s: Signatures, raw: seq<byte>, destination: Address, e: Effect)
    requires |raw| >= 4 && !e.converted && raw[..4] == s.withdraw
    ensures Asks(s, raw, destination, e)
       <==> WithdrawalInputs(raw, destination, false) == Success(Expected(e.tokenIn, e.tokenOut, e.amountIn, e.minOut))
  {
    if |raw| >= 100 {
      ArgumentWord(raw, 3, 0);
      ArgumentWord(raw, 3, 1);
      ArgumentWord(raw, 3, 2);
    }
  }

  /** The decoded arguments are the ones the calldata asks for. */
  lemma InputsMeanAsks(s: Signatures, raw: seq<byte>, destination: Address, e: Effect)
    requires |raw| >= 4 && raw[..4] == (if e.converted then s.convert else s.withdraw)
    ensures Asks(s, raw, destination, e)
            <==> (WithdrawalInputs(raw, destination, e.converted)
                  == Success(Expected(e.tokenIn, e.tokenOut, e.amountIn, e.minOut)))
  {
    if e.converted {
      ConvertInputsMeanAsks(s, raw, destination, e);
    } else {
      WithdrawInputsMeanAsks(s, raw, destination, e);
    }
  }

  lemma BuiltMeansReports(log: Log, e: Effect)
    requires |log.topics| > (if e.converted then 3 else 2)
    requires !e.converted ==> e.tokenOut == e.tokenIn && e.minOut == 0
    ensures var x := Expected(e.tokenIn, e.tokenOut, e.amountIn, e.minOut);
            Reports(log, e)
            <==> (if e.converted then BuildConvertEffect(x, log) else BuildWithdrawEffect(x, log)) == Proven(e)
  {
  }

  /** A known withdrawal is proven exactly when it is asked for and reported once. */
  lemma KnownIsExact(s: Signatures, logs: seq<Log>, executor: Address, raw: seq<byte>, destination: Address, e: Effect)
    requires Proper(s) && |raw| >= 4 && raw[..4] == (if e.converted then s.convert else s.withdraw)
    ensures DecodeKnown(s, logs, executor, raw, destination, e.converted) == Proven(e)
       <==> Asks(s, raw, destination, e) && ReportedOnce(s, logs, executor, destination, e)
  {
    var inputs := WithdrawalInputs(raw, destination, e.converted);
    InputsMeanAsks(s, raw, destination, e);
    EventLogSelects(s, logs, executor, destination, e.converted);
    if inputs.Success? && exists i: nat :: OnlyEffectLog(s, logs, executor, destination, e.converted, i) {
      var i: nat :| OnlyEffectLog(s, logs, executor, destination, e.converted, i);
      var x := inputs.value;
      assert forall j: nat :: OnlyEffectLog(s, logs, executor, destination, e.converted, j) ==> j == i;
      if Asks(s, raw, destination, e) {
        BuiltMeansReports(logs[i], e);
      }
    }
  }

  /** Main theorem: the verdict is ok for an effect if and only if the calldata asks for that
      effect for that destination and exactly one log of the receipt is the executor's event
      and reports it. */
  lemma ProvenIffReportedOnce(s: Signatures, logs: seq<Log>, executor: Option<Address>, calldata: Option<seq<byte>>,
                              destination: Option<Address>, e: Effect)
    requires Proper(s)
    ensures DecodeExternalWithdrawalEffect(s, logs, executor, calldata, destination) == Proven(e)
       <==> && executor.Some? && destination.Some? && calldata.Some?
            && Asks(s, calldata.value, destination.value, e)
            && ReportedOnce(s, logs, executor.value, destination.value, e)
  {
    if executor.Some? && destination.Some? && calldata.Some? && |calldata.value| >= 4 {
      var raw := calldata.value;
      if raw[..4] == (if e.converted then s.convert else s.withdraw) {
        KnownIsExact(s, logs, executor.value, raw, destination.value, e);
      } else if raw[..4] == (if e.converted then s.withdraw else s.convert) {
        OtherKind(s, logs, executor.value, raw, destination.value, !e.converted, e);
      }
    }
  }

  lemma OtherKind(s: Signatures, logs: seq<Log>, executor: Address, raw: seq<byte>, destination: Address,
                  converted: bool, e: Effect)
    requires converted != e.converted
    ensures DecodeKnown(s, logs, executor, raw, destination, converted) != Proven(e)
  {
  }

  function Own(executor: Address): Log -> bool { (log: Log) => log.address == Some(executor) }

  lemma OwnLogsSelect(s: Signatures, logs: seq<Log>, executor: Address, destination: Address, converted: bool)
    ensures Filter(IsEffect(s, executor, destination, converted), Filter(Own(executor), logs))
         == Filter(IsEffect(s, executor, destination, converted), logs)
  {
    var effect := IsEffect(s, executor, destination, converted);
    FilterTwice(Own(executor), effect, effect, logs);
  }

  lemma EventLogIgnoresForeign(s: Signatures, logs: seq<Log>, executor: Address, destination: Address, converted: bool)
    requires Proper(s)
    ensures EventLog(s, logs, executor, destination, EventSignature(s, converted), if converted then 3 else 2)
         == EventLog(s, Filter(Own(executor), logs), executor, destination, EventSignature(s, converted),
                     if converted then 3 else 2)
  {
    OwnLogsSelect(s, logs, executor, destination, converted);
    SelectedLogs(s, logs, executor, destination, converted);
    SelectedLogs(s, Filter(Own(executor), logs), executor, destination, converted);
  }

  lemma ForeignLogsAreNotSelected(s: Signatures, logs: seq<Log>, executor: Address, raw: seq<byte>,
                                  destination: Address, converted: bool)
    requires Proper(s)
    ensures DecodeKnown(s, logs, executor, raw, destination, converted)
         == DecodeKnown(s, Filter(Own(executor), logs), executor, raw, destination, converted)
  {
    EventLogIgnoresForeign(s, logs, executor, destination, converted);
  }

  /** Logs of other contracts never change the verdict, whatever it is. */
  lemma ForeignLogsDoNotMatter(s: Signatures, logs: seq<Log>, executor: Address, calldata: Option<seq<byte>>,
                               destination: Option<Address>)
    requires Proper(s)
    ensures DecodeExternalWithdrawalEffect(s, logs, Some(executor), calldata, destination)
         == DecodeExternalWithdrawalEffect(s, Filter(Own(executor), logs), Some(executor), calldata, destination)
  {
    if destination.Some? && calldata.Some? {
      ForeignLogsAreNotSelected(s, logs, executor, calldata.value, destination.value, false);
      ForeignLogsAreNotSelected(s, logs, executor, calldata.value, destination.value, true);
    }
  }

  // ----------------------------------------------------------------- the recipient

  function ExternalWithdrawalRecipient(s: Signatures, calldata: Option<seq<byte>>): Option<Address> {
    var kind := CalldataKind(s, calldata);
    if kind.Failure? then None
    else
      var words := CalldataWords(calldata.value, if kind.value then 7 else 3);
      if words.None? then None else Some(WordAddress(words.value[if kind.value then 4 else 1]))
  }

  /** A proven effect went to the recipient that the calldata names. */
  lemma ProvenGoesToRecipient(s: Signatures, logs: seq<Log>, executor: Option<Address>, calldata: Option<seq<byte>>,
                              destination: Option<Address>)
    requires DecodeExternalWithdrawalEffect(s, logs, executor, calldata, destination).Proven?
    ensures ExternalWithdrawalRecipient(s, calldata) == destination
  {
  }

  /** The arguments of a call, one word each. */
  function Call(selector: seq<byte>, words: seq<seq<byte>>): seq<byte> {
    if words == [] then selector else Call(selector, words[..|words|-1]) + words[|words|-1]
  }

  lemma {:induction false} CallReads(selector: seq<byte>, words: seq<seq<byte>>, i: nat)
    requires |selector| == 4 && i < |words| && forall k | 0 <= k < |words| :: |words[k]| == 32
    ensures |Call(selector, words)| == 4 + 32 * |words|
    ensures Call(selector, words)[..4] == selector
    ensures ArgumentAt(Call(selector, words), i) == words[i]
  {
    var n := |words| - 1;
    if n == 0 {
      assert Call(selector, words[..n]) == selector;
    } else {
      CallReads(selector, words[..n], if i < n then i else 0);
    }
  }

  /** Where the call of either kind has its destination. */
  function Arguments(converted: bool): nat { if converted then 7 else 3 }
  function DestinationArgument(converted: bool): nat { if converted then 4 else 1 }

  /** A call of either kind built word by word, a withdrawal or a conversion with withdrawal,
      names its destination back, whatever its other arguments are. */
  lemma RecipientRoundTrip(s: Signatures, converted: bool, words: seq<seq<byte>>, destination: Address)
    requires Proper(s) && |destination| == 20
    requires |words| == Arguments(converted) && forall k | 0 <= k < |words| :: |words[k]| == 32
    requires words[DestinationArgument(converted)] == AddressWord(destination)
    ensures ExternalWithdrawalRecipient(s, Some(Call(if converted then s.convert else s.withdraw, words)))
        == Some(destination)
  {
    var selector := if converted then s.convert else s.withdraw;
    CallReads(selector, words, DestinationArgument(converted));
    ArgumentWord(Call(selector, words), Arguments(converted), DestinationArgument(converted));
  }

  // -------------------------------------------------------------------- the ledger

  datatype Account = Asset(token: Address) | EquityExternalWithdrawal

  datatype Line = Line(account: Account, asset: Address, amount: int)

  function ExternalWithdrawalLines(token: Address, amount: int): seq<Line> {
    [Line(Asset(token), token, -amount), Line(EquityExternalWithdrawal, token, amount)]
  }

  /** The ledger transaction of an effect as given: a token that is not an address, an amount
      that is not a positive integer, raises. */
  function CanonicalTransaction(token: Option<Address>, amount: Option<int>): Outcome<seq<Line>> {
    if token.None? || amount.None? || amount.value <= 0 then Raised
    else Returned(ExternalWithdrawalLines(token.value, amount.value))
  }

  function LineAmount(l: Line): int { l.amount }

  /** Every transaction balances in its one asset. */
  lemma TransactionsBalance(token: Option<Address>, amount: Option<int>)
    ensures var t := CanonicalTransaction(token, amount);
            t.Returned? ==>
              Ordering.SumOf(t.value, LineAmount) == 0 && forall l | l in t.value :: Some(l.asset) == token
    ensures CanonicalTransaction(token, amount).Returned? <==> token.Some? && amount.Some? && amount.value > 0
  {
    if token.Some? && amount.Some? && amount.value > 0 {
      var lines := ExternalWithdrawalLines(token.value, amount.value);
      assert lines[1..] == [lines[1]] && lines[1..][1..] == [];
      assert Ordering.SumOf(lines[1..], LineAmount) == lines[1].amount;
    }
  }

  /** A proven effect can always be booked: it takes exactly the amount that left out of the
      asset account. */
  lemma ProvenEffectsSettle(s: Signatures, logs: seq<Log>, executor: Option<Address>, calldata: Option<seq<byte>>,
                            destination: Option<Address>)
    requires DecodeExternalWithdrawalEffect(s, logs, executor, calldata, destination).Proven?
    ensures var e := DecodeExternalWithdrawalEffect(s, logs, executor, calldata, destination).effect;
            && CanonicalTransaction(Some(e.tokenOut), Some(e.amountOut)).Returned?
            && CanonicalTransaction(Some(e.tokenOut), Some(e.amountOut)).value[0]
              == Line(Asset(e.tokenOut), e.tokenOut, 0 - e.amountOut)
            && |e.tokenOut| == 20
  {
  }
}
