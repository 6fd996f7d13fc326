/** The entities of the main chain ledger and its transactions. */
module LedgerTypes {
  const LIMIT: nat := 0x1_0000_0000_0000_0000

  type u64 = x: nat | x < LIMIT

  /** Unsigned 64-bit arithmetic wraps around. */
  function Add(x: u64, y: u64): u64 { (x + y) % LIMIT }

  function Mul(x: u64, y: u64): u64 { (x * y) % LIMIT }

  /** An address is the hash of a public key or of an account and a nonce; hashes do not collide. */
  datatype Address = User(key: nat) | Database(owner: Address, nonce: nat)

  /** The byte order of addresses, any total order. */
  predicate Before(a: Address, b: Address) {
    match (a, b)
    case (User(x), User(y)) => x < y
    case (User(_), Database(_, _)) => true
    case (Database(_, _), User(_)) => false
    case (Database(o, n), Database(p, m)) => Before(o, p) || (o == p && n < m)
  }

  lemma {:induction false} BeforeTotal(a: Address, b: Address)
    ensures a == b || Before(a, b) || Before(b, a)
    ensures !(Before(a, b) && Before(b, a)) && !Before(a, a)
  {
    match (a, b)
    case (Database(o, _), Database(p, _)) => BeforeTotal(o, p); BeforeTotal(o, o);
    case (Database(o, _), _) => BeforeTotal(o, o);
    case _ =>
  }

  lemma {:induction false} BeforeTransitive(a: Address, b: Address, c: Address)
    requires Before(a, b) && Before(b, c)
    ensures Before(a, c)
  {
    match (a, b, c)
    case (Database(o, _), Database(p, _), Database(q, _)) =>
      if Before(o, p) && Before(p, q) { BeforeTransitive(o, p, q); }
    case _ =>
  }

  datatype Token = Particle | Wave

  datatype Balance = Balance(particle: u64, wave: u64) {
    function Of(t: Token): u64 { if t.Particle? then particle else wave }

    function With(t: Token, v: u64): Balance {
      if t.Particle? then this.(particle := v) else this.(wave := v)
    }
  }

  datatype Account = Account(balance: Balance, nextNonce: nat)

  const EmptyAccount := Account(Balance(0, 0), 0)

  datatype Status = Unknown | Normal | Reminder | InArrears | Arbitration {
    predicate EnableQuery() { Normal? || Reminder? }
  }

  /** Permission bits: 1 read, 2 write, 4 super. */
  datatype Permission = Permission(role: nat) {
    predicate Super() { (role / 4) % 2 == 1 }
  }

  const ADMIN := Permission(7)

  datatype DbUser = DbUser(
    address: Address, permission: Permission, advance: u64, arrears: u64, deposit: u64, status: Status)

  datatype UserArrears = UserArrears(user: Address, amount: u64)

  datatype Miner = Miner(
    address: Address, nodeID: nat, pending: u64, received: u64, arrears: seq<UserArrears>, deposit: u64)

  datatype Profile = Profile(
    gasPrice: u64, lastUpdated: nat, token: Token, owner: Address, miners: seq<Miner>, users: seq<DbUser>)

  datatype Provider = Provider(
    space: nat, memory: nat, loadAvg: real, targetUsers: seq<Address>, deposit: u64, gasPrice: u64,
    token: Token, nodeID: nat)

  datatype Ledger = Ledger(
    accounts: map<Address, Account>, databases: map<Address, Profile>, providers: map<Address, Provider>)

  const EmptyLedger := Ledger(map[], map[], map[])

  datatype MinerIncome = MinerIncome(miner: Address, income: u64)

  datatype UserCost = UserCost(user: Address, cost: u64, miners: seq<MinerIncome>)

  datatype Body =
    | Transfer(sender: Address, receiver: Address, amount: u64, token: Token)
    | ProvideService(space: nat, memory: nat, loadAvg: real, targetUsers: seq<Address>, gasPrice: u64, nodeID: nat)
    | CreateDatabase(owner: Address, targets: seq<Address>, nodes: nat, reqSpace: nat, reqMemory: nat,
                     reqLoadAvg: real, price: u64, advancePayment: u64, payToken: Token)
    | UpdatePermission(target: Address, targetUser: Address, permission: Permission)
    | IssueKeys(database: Address)
    | UpdateBilling(billed: Address, costs: seq<UserCost>, from: nat, to: nat, version: int)

  /** A transaction; key is the signing public key and signed tells whether the signature verifies. */
  datatype Tx = Tx(key: nat, nonce: nat, signed: bool, body: Body) {
    function Sender(): Address {
      if body.Transfer? then body.sender else User(key)
    }

    predicate Verify() { signed }
  }

  datatype Err =
    | NoErr
    | AccountNotFound | InvalidNonce | InvalidSender | InsufficientBalance | BalanceOverflow
    | DatabaseNotFound | DatabaseExists | WrongTokenType | InsufficientTransfer
    | InvalidGasPrice | InvalidMinerCount | InsufficientAdvancePayment | NoSuchMiner | NoEnoughMiner
    | MinerUserNotMatch | MinerMismatch | PermissionDeny | NoSuperUserLeft | InvalidRange

  /** The ledger after an operation, which an error may leave changed, and the error. */
  datatype Applied = Applied(ledger: Ledger, err: Err)

  /** An order among candidates that their node ids leave open. */
  type Rank = Address -> nat

  /** How the walk over the providers and the unstable sort leave candidates with equal node ids, for
      a request of a key with a nonce on given providers. Every other call may do it differently. */
  type Ties = (nat, nat, Body, map<Address, Provider>) -> Rank

  /** Chain parameters from the configuration, and how ties fall in the calls that use it. */
  datatype Config = Config(qps: u64, billingBlocks: u64, minProviderDeposit: u64, ties: Ties)

  const FIX_PROVIDE_SERVICE: nat := 675550

  const MAX_TXS_PER_BLOCK: nat := 10000

  const MAX_PENDING_TXS: nat := 1000
}
