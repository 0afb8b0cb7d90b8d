/** The wallet hook: extracting an account id from whatever the wallet
    provider returns, and the connection status it keeps. */
module WeilWallet {
  import opened Outcomes
  import opened Js

  /** `value.toString()` on an object: its text, or `None` when the object
      has no callable `toString`. */
  type ToText = Value -> Option<string>

  /** The properties an account object is searched for, in priority order. */
  const AccountKeys: seq<string> :=
    ["address", "addr", "id", "account", "accountId", "wallet", "walletAddress", "publicKey"]

  const PlainObjectText := "[object Object]"

  /** `extractAccountId`: an account id, or `None` for `null`. */
  function ExtractAccountId(v: Value, toText: ToText): (r: Option<string>)
    ensures r.Some? ==> |r.value| > 0
    decreases v
  {
    if v.Str? && |v.s| > 0 then Some(v.s)
    else if v.Num? then Some(Decimal(v.n))
    else if IsObject(v) then
      var maybe := Coalesce(v, AccountKeys);
      if maybe.Str? && |maybe.s| > 0 then Some(maybe.s)
      else if IsObject(maybe) then
        CoalesceField(v, AccountKeys);
        ExtractAccountId(maybe, toText)
      else
        TextFallback(v, toText)
    else
      None
  }

  /** The `toString()` fallback: used only when non-empty and not the default
      object text. */
  function TextFallback(v: Value, toText: ToText): Option<string> {
    match toText(v)
    case Some(text) => if text != "" && text != PlainObjectText then Some(text) else None
    case None => None
  }

  /** A non-empty string is its own id and a number its decimal string; an
      empty string, null, undefined and booleans have none. */
  lemma ExtractPrimitive(v: Value, toText: ToText)
    ensures v.Str? && v.s != "" ==> ExtractAccountId(v, toText) == Some(v.s)
    ensures v.Num? ==> ExtractAccountId(v, toText) == Some(Decimal(v.n))
    ensures v.Num? ==> ParseDecimal(ExtractAccountId(v, toText).value) == Some(v.n)
    ensures v == Str("") || v.Null? || v.Undefined? || v.Bool? ==> ExtractAccountId(v, toText) == None
  {
    if v.Num? { DecimalRoundTrip(v.n); }
  }

  /** For an object, the first non-nullish property among `AccountKeys`
      decides: a non-empty string is the id, an object is searched in turn,
      and anything else falls back to the object's own text. */
  lemma ExtractFromObject(v: Value, toText: ToText, i: nat)
    requires IsObject(v) && i < |AccountKeys|
    requires FirstPresentAt(v, AccountKeys, i) && !Nullish(Get(v, AccountKeys[i]))
    ensures var field := Get(v, AccountKeys[i]);
      ExtractAccountId(v, toText) ==
        if field.Str? && field.s != "" then Some(field.s)
        else if IsObject(field) then ExtractAccountId(field, toText)
        else TextFallback(v, toText)
  {
    var maybe := Coalesce(v, AccountKeys);
    var j :| 0 <= j < |AccountKeys| && maybe == Get(v, AccountKeys[j]) && FirstPresentAt(v, AccountKeys, j);
    FirstPresentUnique(v, AccountKeys, i, j);
  }

  /** An object with none of the properties is identified only by its text. */
  lemma ExtractWithoutProperties(v: Value, toText: ToText)
    requires IsObject(v)
    requires forall i :: 0 <= i < |AccountKeys| ==> Nullish(Get(v, AccountKeys[i]))
    ensures ExtractAccountId(v, toText) == TextFallback(v, toText)
  {
  }

  /** When the first present property is neither a non-empty string nor an
      object, or none is present, the object's own text is the id exactly
      when it is non-empty and not the default object text. */
  lemma ExtractByText(v: Value, toText: ToText, t: string)
    requires IsObject(v)
    requires var maybe := Coalesce(v, AccountKeys); !(maybe.Str? && maybe.s != "") && !IsObject(maybe)
    ensures ExtractAccountId(v, toText) == Some(t) <==> toText(v) == Some(t) && t != "" && t != PlainObjectText
    ensures ExtractAccountId(v, toText).None? <==>
      toText(v).None? || toText(v).value == "" || toText(v).value == PlainObjectText
  {
  }

  /** The nested shape `{ account: { address: … } }` yields the inner address. */
  lemma ExtractNested(address: string, toText: ToText)
    requires address != ""
    ensures ExtractAccountId(Obj(map["account" := Obj(map["address" := Str(address)])]), toText) == Some(address)
  {
    var inner := Obj(map["address" := Str(address)]);
    var outer := Obj(map["account" := inner]);
    assert Get(outer, AccountKeys[3]) == inner;
    assert FirstPresentAt(outer, AccountKeys, 3);
    ExtractFromObject(outer, toText, 3);
    assert FirstPresentAt(inner, AccountKeys, 0);
    ExtractFromObject(inner, toText, 0);
  }

  // ---------------------------------------------------------------------
  // Connecting
  // ---------------------------------------------------------------------

  datatype WalletStatus = Idle | Connecting | Connected | Error

  /** A readiness check of the provider: not offered, or its awaited answer. */
  datatype Probe = NotOffered | Answered(answer: Outcome<Value>)

  /** What the provider answers during one `connect`. */
  datatype ConnectAnswers = ConnectAnswers(isSetUp: Probe, isUnlocked: Probe, accounts: Outcome<Value>)

  const NoProviderMessage := "Weil Wallet extension is not detected."
  const NotSetUpMessage := "WAuth is not set up. Please set up your wallet first."
  const LockedMessage := "WAuth is locked. Please unlock your wallet first."
  const NoAccountsMessage := "No accounts found. Please create an account in WAuth or approve the connection request."
  const InvalidAccountMessage := "Invalid account address format. Unable to extract wallet address."
  const ConnectFailedMessage := "Unable to connect to WAuth. Please try again."

  /** `!accounts || !Array.isArray(accounts) || accounts.length === 0`. */
  predicate NoAccounts(accounts: Value) {
    !Truthy(accounts) || !accounts.Arr? || |accounts.items| == 0
  }

  /** A readiness check: the error it raises, if any. */
  function ProbeError(p: Probe, failure: string): Option<string> {
    match p
    case NotOffered => None
    case Answered(Threw(m)) => Some(m.GetOr(ConnectFailedMessage))
    case Answered(Returned(ok)) => if Truthy(ok) then None else Some(failure)
  }

  /** The account id `connect` settles on, or the error message it shows. */
  function ConnectResult(answers: ConnectAnswers, toText: ToText): Result<string, string> {
    match ProbeError(answers.isSetUp, NotSetUpMessage)
    case Some(m) => Err(m)
    case None =>
      match ProbeError(answers.isUnlocked, LockedMessage)
      case Some(m) => Err(m)
      case None =>
        match answers.accounts
        case Threw(m) => Err(m.GetOr(ConnectFailedMessage))
        case Returned(accounts) =>
          if NoAccounts(accounts) then Err(NoAccountsMessage)
          else
            match ExtractAccountId(accounts.items[0], toText)
            case None => Err(InvalidAccountMessage)
            case Some(primary) => if primary == "" then Err(InvalidAccountMessage) else Ok(primary)
  }

  /** `connect` succeeds exactly when both readiness checks pass and the
      accounts answer is a non-empty array whose first entry yields an id;
      that id is the account. The empty-id guard never fires, because an
      extracted id is never empty. */
  lemma ConnectSucceedsIff(answers: ConnectAnswers, toText: ToText)
    ensures ConnectResult(answers, toText).Ok? <==>
      && ProbeError(answers.isSetUp, NotSetUpMessage).None?
      && ProbeError(answers.isUnlocked, LockedMessage).None?
      && answers.accounts.Returned?
      && !NoAccounts(answers.accounts.value)
      && ExtractAccountId(answers.accounts.value.items[0], toText).Some?
    ensures ConnectResult(answers, toText).Ok? ==>
      ConnectResult(answers, toText).value == ExtractAccountId(answers.accounts.value.items[0], toText).value
    ensures ConnectResult(answers, toText).Ok? ==> ConnectResult(answers, toText).value != ""
  {
  }

  /** The state `useWeilWallet` keeps. */
  class WalletHook {
    const providerPresent: bool
    var hasWallet: bool
    var status: WalletStatus
    var account: Option<string>
    var error: Option<string>

    /** "connected" always comes with a wallet, which the page needs to build
        its API, and a wallet is only ever made from a present provider. */
    ghost predicate Valid()
      reads this
    {
      && (status == Connected ==> hasWallet)
      && (hasWallet ==> providerPresent)
    }

    constructor (providerPresent: bool)
      ensures Valid()
      ensures this.providerPresent == providerPresent
      ensures !hasWallet && status == Idle && account == None && error == None
    {
      this.providerPresent := providerPresent;
      hasWallet := false;
      status := Idle;
      account := None;
      error := None;
    }

    /** The synchronous start of `connect`: without a provider it fails at
        once; otherwise it shows "connecting" and clears the error. */
    method BeginConnect() returns (proceed: bool)
      requires Valid()
      modifies this
      ensures Valid()
      ensures proceed == providerPresent
      ensures !providerPresent ==> status == Error && error == Some(NoProviderMessage)
      ensures providerPresent ==> status == Connecting && error == None
      ensures hasWallet == old(hasWallet) && account == old(account)
    {
      if !providerPresent {
        error := Some(NoProviderMessage);
        status := Error;
        return false;
      }
      status := Connecting;
      error := None;
      return true;
    }

    /** The end of `connect`, once the provider has answered. A failure
        leaves the account and wallet as they were. */
    method FinishConnect(answers: ConnectAnswers, toText: ToText)
      requires Valid() && providerPresent
      modifies this
      ensures Valid()
      ensures ConnectResult(answers, toText).Ok? ==>
        && account == Some(ConnectResult(answers, toText).value)
        && hasWallet && status == Connected && error == old(error)
      ensures ConnectResult(answers, toText).Err? ==>
        && status == Error && error == Some(ConnectResult(answers, toText).error)
        && account == old(account) && hasWallet == old(hasWallet)
    {
      match ConnectResult(answers, toText)
      case Ok(primary) =>
        account := Some(primary);
        hasWallet := true;
        status := Connected;
      case Err(m) =>
        status := Error;
        error := Some(m);
    }

    /** `connect`. */
    method Connect(answers: ConnectAnswers, toText: ToText)
      requires Valid()
      modifies this
      ensures Valid()
      ensures !providerPresent ==>
        status == Error && error == Some(NoProviderMessage) && account == old(account) && hasWallet == old(hasWallet)
      ensures providerPresent ==> (status == Connected <==> ConnectResult(answers, toText).Ok?)
      ensures providerPresent && ConnectResult(answers, toText).Ok? ==>
        account == Some(ConnectResult(answers, toText).value) && hasWallet && error == None
      ensures providerPresent && ConnectResult(answers, toText).Err? ==>
        status == Error && error == Some(ConnectResult(answers, toText).error)
        && account == old(account) && hasWallet == old(hasWallet)
    {
      var proceed := BeginConnect();
      if proceed {
        FinishConnect(answers, toText);
      }
    }

    /** `disconnect`: the wallet and account are dropped and the status is
        idle; the error is left as it was. */
    method Disconnect()
      requires Valid()
      modifies this
      ensures Valid()
      ensures !hasWallet && account == None && status == Idle && error == old(error)
    {
      hasWallet := false;
      account := None;
      status := Idle;
    }

    /** The `accountsChanged` handler: an empty or non-array answer
        disconnects; otherwise the account follows the first entry (possibly
        to none) while the wallet and status stay. */
    method AccountsChanged(accounts: Value, toText: ToText)
      requires Valid()
      modifies this
      ensures Valid()
      ensures NoAccounts(accounts) ==> !hasWallet && account == None && status == Idle
      ensures !NoAccounts(accounts) ==>
        account == ExtractAccountId(accounts.items[0], toText) && hasWallet == old(hasWallet) && status == old(status)
      ensures error == old(error)
    {
      if NoAccounts(accounts) {
        account := None;
        hasWallet := false;
        status := Idle;
        return;
      }
      account := ExtractAccountId(accounts.items[0], toText);
    }

    /** The mount-time restore: when the provider reports a connection, the
        accounts are read and a usable first account reconnects. */
    method Hydrate(isConnected: bool, accounts: Outcome<Value>, toText: ToText)
      requires Valid()
      modifies this
      ensures Valid()
      ensures !(providerPresent && isConnected) || accounts.Threw? ==>
        account == old(account) && hasWallet == old(hasWallet) && status == old(status)
      ensures providerPresent && isConnected && accounts.Returned? && NoAccounts(accounts.value) ==>
        account == None && hasWallet == old(hasWallet) && status == old(status)
      ensures providerPresent && isConnected && accounts.Returned? && !NoAccounts(accounts.value) ==>
        && account == ExtractAccountId(accounts.value.items[0], toText)
        && (account.Some? ==> hasWallet && status == Connected)
        && (account.None? ==> hasWallet == old(hasWallet) && status == old(status))
      ensures error == old(error)
    {
      if !(providerPresent && isConnected) {
        return;
      }
      match accounts
      case Threw(_) =>
      case Returned(list) =>
        if NoAccounts(list) {
          account := None;
        } else {
          account := ExtractAccountId(list.items[0], toText);
          if account.Some? {
            hasWallet := true;
            status := Connected;
          }
        }
    }
  }
}
