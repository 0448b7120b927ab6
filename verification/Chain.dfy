/** Decoded chain state: what one blob of the node holds, and what reaches the converters. */
module Chain {
  import opened Encoding
  import opened Tables
  import opened ChangeDetection

  const TWO64: nat := 0x1_0000_0000_0000_0000
  const TWO32: nat := 0x1_0000_0000
  const TWO16: nat := 0x1_0000

  type U64 = x: nat | x < TWO64

  type U16 = x: nat | x < TWO16

  datatype Account = Account(address: Bytes, amount: U64)

  datatype SellOrder = SellOrder(id: Bytes, committee: U64, data: Bytes, amountForSale: U64, requestedAmount: U64,
                                 sellerReceiveAddress: Bytes, buyerSendAddress: Bytes, buyerReceiveAddress: Bytes,
                                 buyerChainDeadline: U64, sellersSendAddress: Bytes)

  datatype DexPrice = DexPrice(localChainId: U64, remoteChainId: U64, localPool: U64, remotePool: U64, e6ScaledPrice: U64)

  datatype CommitteeData = CommitteeData(chainId: U64, lastRootHeightUpdated: U64, lastChainHeightUpdated: U64,
                                         numberOfSamples: U64)

  datatype Supply = Supply(total: U64, staked: U64, delegatedOnly: U64)

  datatype PoolPoints = PoolPoints(address: Bytes, points: U64)

  datatype Pool = Pool(id: U64, amount: U64, totalPoolPoints: U64, points: seq<PoolPoints>)

  datatype Validator = Validator(address: Bytes, publicKey: Bytes, netAddress: string, stakedAmount: U64,
                                 committees: seq<U64>, maxPausedHeight: U64, unstakingHeight: U64, output: Bytes,
                                 delegate: bool, compound: bool)

  datatype NonSigner = NonSigner(address: Bytes, counter: U64)

  datatype DoubleSigner = DoubleSigner(id: Bytes, heights: seq<U64>)

  datatype LimitOrder = LimitOrder(orderId: Bytes, address: Bytes, amountForSale: U64, requestedAmount: U64)

  datatype Deposit = Deposit(orderId: Bytes, address: Bytes, amount: U64)

  datatype Withdrawal = Withdrawal(orderId: Bytes, address: Bytes, percent: U64)

  datatype DexBatch = DexBatch(committee: U64, lockedHeight: U64, orders: seq<LimitOrder>, deposits: seq<Deposit>,
                               withdrawals: seq<Withdrawal>)

  datatype EventType = AutoPause | AutoBeginUnstaking | Slash | Reward | DexSwap | DexDeposit | DexWithdraw | OtherEvent

  /** The message of an event once parsed; Malformed when parsing fails. */
  datatype EventMessage =
    | SwapMessage(orderId: Bytes, soldAmount: U64, boughtAmount: U64, localOrigin: bool, success: bool)
    | DepositMessage(orderId: Bytes, localOrigin: bool, points: U64)
    | WithdrawMessage(orderId: Bytes, localAmount: U64, remoteAmount: U64, pointsBurned: U64)
    | Malformed

  datatype Event = Event(eventType: EventType, address: Bytes, msg: EventMessage)

  datatype Blob = Blob(accounts: seq<Account>, orders: seq<SellOrder>, dexPrices: seq<DexPrice>, supply: Option<Supply>,
                       committees: seq<CommitteeData>, subsidizedCommittees: seq<U64>, retiredCommittees: seq<U64>,
                       validators: seq<Validator>, pools: seq<Pool>, nonSigners: seq<NonSigner>,
                       doubleSigners: seq<DoubleSigner>, dexBatches: seq<DexBatch>, nextDexBatches: seq<DexBatch>,
                       events: seq<Event>)

  /** The chain itself: the state the node reports for each height, always the same for one height. */
  type Chain = nat -> Blob

  /** What the converters receive: a height's state, and the state before it or nothing. */
  datatype BlockData = BlockData(height: nat, current: Blob, previous: Blob)

  const NOTHING := Blob([], [], [], None, [], [], [], [], [], [], [], [], [], [])

  /** Every field of the previous state is left empty when no previous blob came along. */
  function BuildBlockData(height: nat, current: Blob, previous: Option<Blob>): BlockData {
    BlockData(height, current, match previous case Some(b) => b case None => NOTHING)
  }

  /** The data of one delivery of a chain's block. */
  function Delivered(chain: Chain, d: Delivery): BlockData {
    BuildBlockData(d.height, chain(d.height), if d.HasPrevious() then Some(chain(d.height - 1)) else None)
  }
}
