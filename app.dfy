/** The application shell: id abbreviation, the card-selection toggle and
    the per-action status board. */
module App {
  import opened Outcomes
  import opened Js
  import opened Types
  import Ui

  // ---------------------------------------------------------------------
  // Abbreviating ids for display
  // ---------------------------------------------------------------------

  const NotConnected := "Not connected"

  /** The properties an object is searched for, in priority order. */
  const ShortenKeys: seq<string> := ["address", "addr", "id"]

  /** The display form of an account or id of unknown shape. */
  function Shorten(v: Value): (r: string)
    decreases if v.Str? then 0 else 1
  {
    if v.Str? && |v.s| >= 10 then v.s[..6] + "..." + v.s[|v.s| - 4..]
    else if v.Str? then v.s
    else if v.Num? then Decimal(v.n)
    else if IsObject(v) then
      var maybe := Coalesce(v, ShortenKeys);
      if maybe.Str? then Shorten(maybe) else NotConnected
    else
      NotConnected
  }

  /** A long string keeps its first six and last four characters around an
      ellipsis, thirteen characters in all; a short one is unchanged. */
  lemma ShortenString(s: string)
    ensures |s| >= 10 ==> var r := Shorten(Str(s));
      |r| == 13 && r[..6] == s[..6] && r[6..9] == "..." && r[9..] == s[|s| - 4..]
    ensures |s| < 10 ==> Shorten(Str(s)) == s
  {
  }

  /** Abbreviating an abbreviation changes nothing. */
  lemma ShortenIdempotent(s: string)
    ensures Shorten(Str(Shorten(Str(s)))) == Shorten(Str(s))
  {
    if |s| >= 10 {
      var r := Shorten(Str(s));
      assert r[..6] == s[..6];
      assert r[|r| - 4..] == s[|s| - 4..];
    }
  }

  /** A number is shown as its decimal string, which reads back as that number. */
  lemma ShortenNumber(n: int)
    ensures Shorten(Num(n)) == Decimal(n)
    ensures ParseDecimal(Shorten(Num(n))) == Some(n)
  {
    DecimalRoundTrip(n);
  }

  /** An object is shown by its first non-nullish `address`, `addr` or `id`
      property when that is a string; otherwise, and for null, undefined and
      booleans, "Not connected". */
  lemma ShortenObject(v: Value)
    ensures IsObject(v) ==> forall i :: 0 <= i < |ShortenKeys| && FirstPresentAt(v, ShortenKeys, i) && !Nullish(Get(v, ShortenKeys[i])) ==>
      Shorten(v) == (if Get(v, ShortenKeys[i]).Str? then Shorten(Get(v, ShortenKeys[i])) else NotConnected)
    ensures IsObject(v) && (forall i :: 0 <= i < |ShortenKeys| ==> Nullish(Get(v, ShortenKeys[i]))) ==> Shorten(v) == NotConnected
    ensures (v.Null? || v.Undefined? || v.Bool?) ==> Shorten(v) == NotConnected
  {
    if IsObject(v) {
      var maybe := Coalesce(v, ShortenKeys);
      forall i | 0 <= i < |ShortenKeys| && FirstPresentAt(v, ShortenKeys, i) && !Nullish(Get(v, ShortenKeys[i]))
        ensures maybe == Get(v, ShortenKeys[i])
      {
        var j :| 0 <= j < |ShortenKeys| && maybe == Get(v, ShortenKeys[j]) && FirstPresentAt(v, ShortenKeys, j);
        FirstPresentUnique(v, ShortenKeys, i, j);
      }
    }
  }

  // ---------------------------------------------------------------------
  // Toggling a card in a selection
  // ---------------------------------------------------------------------

  /** `s.filter(x => x !== c)`: `s` with every copy of `c` removed, keeping
      the other cards in order. */
  function Without(s: seq<Card>, c: Card): (r: seq<Card>)
    ensures Count(r, c) == 0
    ensures forall d :: d != c ==> Count(r, d) == Count(s, d)
    ensures |r| <= |s|
  {
    if s == [] then []
    else
      var rest := Without(s[1..], c);
      assert s == [s[0]] + s[1..];
      assert multiset(s) == multiset([s[0]]) + multiset(s[1..]);
      if s[0] == c then rest
      else
        assert multiset([s[0]] + rest) == multiset([s[0]]) + multiset(rest);
        assert forall d :: d != c ==> Count([s[0]] + rest, d) == Count([s[0]], d) + Count(s[1..], d) == Count(s, d);
        [s[0]] + rest
  }

  /** The next selection after a click on `card`: at or above the number of
      copies available, every copy is dropped; below it, one more copy is
      appended. */
  function Toggle(card: Card, available: seq<Card>, list: seq<Card>): seq<Card> {
    if Count(list, card) >= Count(available, card) then Without(list, card) else list + [card]
  }

  lemma {:induction false} WithoutAppend(s: seq<Card>, t: seq<Card>, c: Card)
    ensures Without(s + t, c) == Without(s, c) + Without(t, c)
  {
    if s != [] {
      assert (s + t)[1..] == s[1..] + t;
      WithoutAppend(s[1..], t, c);
    } else {
      assert s + t == t;
    }
  }

  lemma {:induction false} WithoutIdempotent(s: seq<Card>, c: Card)
    ensures Without(Without(s, c), c) == Without(s, c)
  {
    if s != [] {
      WithoutIdempotent(s[1..], c);
      if s[0] != c {
        assert ([s[0]] + Without(s[1..], c))[1..] == Without(s[1..], c);
      }
    }
  }

  /** A click on `card` either drops all its copies (when the selection already
      holds as many as are available) or appends exactly one copy at the end. */
  lemma ToggleEffect(card: Card, available: seq<Card>, list: seq<Card>)
    ensures var next := Toggle(card, available, list);
      if Count(list, card) >= Count(available, card) then Count(next, card) == 0
      else Count(next, card) == Count(list, card) + 1 && |next| == |list| + 1 && next[..|list|] == list && next[|list|] == card
  {
  }

  /** A click on `card` leaves the other cards, their number and their relative
      order, exactly as they were. */
  lemma ToggleKeepsOthers(card: Card, available: seq<Card>, list: seq<Card>)
    ensures forall d :: d != card ==> Count(Toggle(card, available, list), d) == Count(list, d)
    ensures Without(Toggle(card, available, list), card) == Without(list, card)
  {
    if Count(list, card) >= Count(available, card) {
      WithoutIdempotent(list, card);
    } else {
      WithoutAppend(list, [card], card);
      assert Without([card], card) == [];
    }
  }

  /** A selection within what the user owns stays within it, and a card the
      user does not own is never added. */
  lemma ToggleStaysWithinAvailable(card: Card, available: seq<Card>, list: seq<Card>)
    ensures forall d :: Count(list, d) <= Count(available, d) ==> Count(Toggle(card, available, list), d) <= Count(available, d)
    ensures multiset(list) <= multiset(available) ==> multiset(Toggle(card, available, list)) <= multiset(available)
    ensures Count(available, card) == 0 ==> card !in Toggle(card, available, list)
  {
    var next := Toggle(card, available, list);
    ToggleKeepsOthers(card, available, list);
    if multiset(list) <= multiset(available) {
      forall d ensures multiset(next)[d] <= multiset(available)[d] {
        assert Count(list, d) <= Count(available, d);
      }
    }
  }

  /** `n` clicks on `card` in a row. */
  function ToggleTimes(n: nat, card: Card, available: seq<Card>, list: seq<Card>): seq<Card> {
    if n == 0 then list else ToggleTimes(n - 1, card, available, Toggle(card, available, list))
  }

  /** Repeated clicks cycle: starting within the limit, the selection fills up
      to the number available and the next click clears the card again. */
  lemma {:induction false} ToggleCycles(card: Card, available: seq<Card>, list: seq<Card>)
    requires Count(list, card) <= Count(available, card)
    ensures ToggleTimes(Count(available, card) - Count(list, card) + 1, card, available, list) == Without(list, card)
    decreases Count(available, card) - Count(list, card)
  {
    var next := Toggle(card, available, list);
    if Count(list, card) == Count(available, card) {
      assert next == Without(list, card);
    } else {
      ToggleCycles(card, available, next);
      ToggleKeepsOthers(card, available, list);
    }
  }

  /** A pill shows "max" exactly when the next click on it clears that card
      from the selection; otherwise the click appends one copy. */
  lemma MaxPillMeansNextClickClears(selected: seq<Card>, available: seq<Card>, i: nat)
    requires Ui.CardPills(selected, available).Pills? && i < |Ui.CardPills(selected, available).pills|
    ensures var p := Ui.CardPills(selected, available).pills[i];
      && (p.max <==> Toggle(p.card, available, selected) == Without(selected, p.card))
      && (!p.max ==> Toggle(p.card, available, selected) == selected + [p.card])
  {
    Ui.CardPillsCounts(selected, available);
    var p := Ui.CardPills(selected, available).pills[i];
    if !p.max {
      var next := Toggle(p.card, available, selected);
      assert |next| == |selected| + 1;
      assert |Without(selected, p.card)| <= |selected|;
    }
  }

  /** The three forms whose card pickers share the toggle. */
  datatype Picker = HandPicker | StakePicker | OfferPicker

  /** The message shown when the selection becomes empty. */
  function EmptyMessage(p: Picker): string {
    match p
    case HandPicker => "Select at least one card"
    case StakePicker => "Pick cards"
    case OfferPicker => "Pick cards"
  }

  /** The selection a click leaves behind and the error it shows. */
  datatype Toggled = Toggled(next: seq<Card>, error: Option<string>)

  function HandleToggle(p: Picker, card: Card, available: seq<Card>, list: seq<Card>): Toggled {
    var next := Toggle(card, available, list);
    Toggled(next, if |next| > 0 then None else Some(EmptyMessage(p)))
  }

  /** The error is the picker's empty-selection message exactly when the
      click empties the selection, and is cleared otherwise; a click that
      adds a card always clears it. */
  lemma HandleToggleError(p: Picker, card: Card, available: seq<Card>, list: seq<Card>)
    ensures var t := HandleToggle(p, card, available, list);
      t.next == Toggle(card, available, list) &&
      (t.error == Some(EmptyMessage(p)) <==> t.next == []) &&
      (t.error.None? <==> t.next != []) &&
      (Count(list, card) < Count(available, card) ==> t.error.None?)
  {
  }

  // ---------------------------------------------------------------------
  // Per-action status
  // ---------------------------------------------------------------------

  datatype ActionKey =
    | Register | Deposit | Buy | StartHand | StakeCards | Check
    | OfferCards | Bid | Resolve | Withdraw

  datatype ActionStatus = Idle | Loading | Done

  const NoApiNotice := "Connect your Weil Wallet and set the contract address first."
  const ActionFailedNotice := "Something went wrong."
  const RefreshFailedNotice := "Unable to refresh data right now."
  const ResolveIdNotice := "Offer id is required to resolve."
  const WithdrawIdNotice := "Offer id is required to withdraw a bid."

  /** The task of `handleResolve` and `handleWithdraw`: with no offer id it
      sets the notice `missing` and returns; otherwise it completes or throws
      as the contract call does, leaving the notice alone. */
  function OfferIdTask(offerId: string, missing: string, call: Outcome<Value>): Outcome<Option<string>> {
    if offerId == "" then Returned(Some(missing))
    else match call
      case Returned(_) => Returned(None)
      case Threw(m) => Threw(m)
  }

  /** The status of every action and the notice banner. */
  class ActionBoard {
    var statuses: map<ActionKey, ActionStatus>
    var notice: Option<string>

    ghost predicate Valid()
      reads this
    {
      forall k: ActionKey :: k in statuses
    }

    constructor ()
      ensures Valid()
      ensures forall k: ActionKey :: statuses[k] == Idle
      ensures notice == None
    {
      statuses := map[
        Register := Idle, Deposit := Idle, Buy := Idle, StartHand := Idle, StakeCards := Idle,
        Check := Idle, OfferCards := Idle, Bid := Idle, Resolve := Idle, Withdraw := Idle];
      new;
      forall k: ActionKey ensures k in statuses && statuses[k] == Idle {
        match k
        case Register =>
        case Deposit =>
        case Buy =>
        case StartHand =>
        case StakeCards =>
        case Check =>
        case OfferCards =>
        case Bid =>
        case Resolve =>
        case Withdraw =>
      }
      notice := None;
    }

    /** Sets the status of one action; all others keep theirs. */
    method SetAction(key: ActionKey, value: ActionStatus)
      requires Valid()
      modifies this`statuses
      ensures Valid()
      ensures statuses == old(statuses)[key := value]
      ensures statuses[key] == value
      ensures forall k :: k != key ==> statuses[k] == old(statuses)[k]
    {
      statuses := statuses[key := value];
    }

    /** The synchronous start of an action: without an API only the notice
        changes; with one the action shows as loading and the notice clears. */
    method Begin(key: ActionKey, apiPresent: bool) returns (started: bool)
      requires Valid()
      modifies this
      ensures Valid()
      ensures started == apiPresent
      ensures !apiPresent ==> statuses == old(statuses) && notice == Some(NoApiNotice)
      ensures apiPresent ==> statuses == old(statuses)[key := Loading] && notice == None
    {
      if !apiPresent {
        notice := Some(NoApiNotice);
        return false;
      }
      SetAction(key, Loading);
      notice := None;
      return true;
    }

    /** The end of a started action. A task that completes marks the
        action done and then refreshes the data; the notice is the one the
        task set on its way out (the resolve and withdraw tasks set one when
        the offer id is missing), unless the refresh fails and replaces it.
        A task that throws marks the action idle and shows the error. */
    method Settle(key: ActionKey, task: Outcome<Option<string>>, refresh: Outcome<()>)
      requires Valid()
      modifies this
      ensures Valid()
      ensures task.Returned? ==> statuses == old(statuses)[key := Done]
      ensures task.Returned? && refresh.Returned? ==>
        notice == if task.value.Some? then task.value else old(notice)
      ensures task.Returned? && refresh.Threw? ==> notice == Some(refresh.message.GetOr(RefreshFailedNotice))
      ensures task.Threw? ==> statuses == old(statuses)[key := Idle]
      ensures task.Threw? ==> notice == Some(task.message.GetOr(ActionFailedNotice))
    {
      match task {
        case Returned(written) =>
          if written.Some? {
            notice := written;
          }
          SetAction(key, Done);
          if refresh.Threw? {
            notice := Some(refresh.message.GetOr(RefreshFailedNotice));
          }
        case Threw(message) =>
          SetAction(key, Idle);
          notice := Some(message.GetOr(ActionFailedNotice));
      }
    }

    /** `runAction`: begin, await the task, settle. */
    method RunAction(key: ActionKey, apiPresent: bool, task: Outcome<Option<string>>, refresh: Outcome<()>)
      requires Valid()
      modifies this
      ensures Valid()
      ensures !apiPresent ==> statuses == old(statuses) && notice == Some(NoApiNotice)
      ensures apiPresent && task.Returned? ==> statuses == old(statuses)[key := Done]
      ensures apiPresent && task.Returned? && refresh.Returned? ==> notice == task.value
      ensures apiPresent && task.Returned? && refresh.Threw? ==>
        notice == Some(refresh.message.GetOr(RefreshFailedNotice))
      ensures apiPresent && task.Threw? ==> statuses == old(statuses)[key := Idle]
      ensures apiPresent && task.Threw? ==> notice == Some(task.message.GetOr(ActionFailedNotice))
    {
      var started := Begin(key, apiPresent);
      if started {
        Settle(key, task, refresh);
      }
    }

    /** `handleResolve`: an empty offer id ends the action as done with a
        notice saying the id is required; otherwise the contract call decides. */
    method HandleResolve(offerId: string, apiPresent: bool, call: Outcome<Value>, refresh: Outcome<()>)
      requires Valid()
      modifies this
      ensures Valid()
      ensures !apiPresent ==> statuses == old(statuses) && notice == Some(NoApiNotice)
      ensures apiPresent && offerId == "" ==> statuses == old(statuses)[Resolve := Done]
      ensures apiPresent && offerId == "" && refresh.Returned? ==> notice == Some(ResolveIdNotice)
      ensures apiPresent && offerId != "" && call.Returned? && refresh.Returned? ==>
        statuses == old(statuses)[Resolve := Done] && notice == None
      ensures apiPresent && offerId != "" && call.Threw? ==>
        statuses == old(statuses)[Resolve := Idle] && notice == Some(call.message.GetOr(ActionFailedNotice))
      ensures apiPresent && (offerId == "" || call.Returned?) && refresh.Threw? ==>
        statuses == old(statuses)[Resolve := Done] && notice == Some(refresh.message.GetOr(RefreshFailedNotice))
    {
      RunAction(Resolve, apiPresent, OfferIdTask(offerId, ResolveIdNotice, call), refresh);
    }

    /** `handleWithdraw`, the same shape as `handleResolve` with its own notice. */
    method HandleWithdraw(offerId: string, apiPresent: bool, call: Outcome<Value>, refresh: Outcome<()>)
      requires Valid()
      modifies this
      ensures Valid()
      ensures !apiPresent ==> statuses == old(statuses) && notice == Some(NoApiNotice)
      ensures apiPresent && offerId == "" ==> statuses == old(statuses)[Withdraw := Done]
      ensures apiPresent && offerId == "" && refresh.Returned? ==> notice == Some(WithdrawIdNotice)
      ensures apiPresent && offerId != "" && call.Returned? && refresh.Returned? ==>
        statuses == old(statuses)[Withdraw := Done] && notice == None
      ensures apiPresent && offerId != "" && call.Threw? ==>
        statuses == old(statuses)[Withdraw := Idle] && notice == Some(call.message.GetOr(ActionFailedNotice))
      ensures apiPresent && (offerId == "" || call.Returned?) && refresh.Threw? ==>
        statuses == old(statuses)[Withdraw := Done] && notice == Some(refresh.message.GetOr(RefreshFailedNotice))
    {
      RunAction(Withdraw, apiPresent, OfferIdTask(offerId, WithdrawIdNotice, call), refresh);
    }
  }
}
