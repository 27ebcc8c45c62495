/** The accounts held in page memory and the one browser session over them
    (script.js: `createUserNames`, `loginUser`, `startLogOutUser` and the transfer,
    loan, close and sort handlers). Accounts are objects: the handlers push onto
    their arrays in place, and the current account is a reference that outlives its
    removal from the list. */
module Accounts {
  import opened Wrappers
  import opened Ledger
  import Display
  import Handles
  import Countdown

  class Account {
    const owner: string
    const pin: int
    /** Percent per deposit. */
    const interestRate: real
    /** Formatting hints, opaque to the ledger. */
    const currency: string
    const locale: string
    var movements: seq<real>
    /** Millisecond timestamps, one per movement. */
    var movementsDates: seq<int>
    /** Assigned by CreateUserNames; empty before. */
    var userName: string
    /** The `balance` property that `calcDisplayBalance` attaches: absent until the
        account is first displayed, and refreshed only when it is displayed again. */
    var balance: Option<real>

    ghost predicate Paired()
      reads this
    {
      |movements| == |movementsDates|
    }

    constructor (owner: string, movements: seq<real>, movementsDates: seq<int>,
                 interestRate: real, pin: int, currency: string, locale: string)
      requires |movementsDates| == |movements|
      ensures Paired()
      ensures this.owner == owner && this.pin == pin && this.interestRate == interestRate
      ensures this.currency == currency && this.locale == locale
      ensures this.movements == movements && this.movementsDates == movementsDates
      ensures userName == [] && balance == None
    {
      this.owner, this.pin, this.interestRate := owner, pin, interestRate;
      this.currency, this.locale := currency, locale;
      this.movements, this.movementsDates := movements, movementsDates;
      userName, balance := [], None;
    }
  }

  /** Gives every account its handle, one after the other (script.js:198-200). */
  method CreateUserNames(accs: seq<Account>)
    modifies set a | a in accs
    ensures forall a :: a in accs ==> a.userName == Handles.Handle(a.owner)
    ensures forall a :: a in accs ==>
      a.movements == old(a.movements) && a.movementsDates == old(a.movementsDates) && a.balance == old(a.balance)
  {
    for i := 0 to |accs|
      invariant forall k :: 0 <= k < i ==> accs[k].userName == Handles.Handle(accs[k].owner)
      invariant forall a :: a in accs ==>
        a.movements == old(a.movements) && a.movementsDates == old(a.movementsDates) && a.balance == old(a.balance)
    {
      accs[i].userName := Handles.Handle(accs[i].owner);
    }
  }

  function HandlesOf(accs: seq<Account>): (handles: seq<string>)
    reads (set a | a in accs)`userName
    ensures |handles| == |accs|
    ensures forall k :: 0 <= k < |accs| ==> handles[k] == accs[k].userName
  {
    if accs == [] then [] else [accs[0].userName] + HandlesOf(accs[1..])
  }

  /** `splice(start, 1)`: a negative start counts from the end, so -1 removes the last
      element of a non-empty array. */
  function SpliceOne<T>(s: seq<T>, start: int): (r: seq<T>)
    ensures 0 <= start < |s| ==> r == s[..start] + s[start + 1..]
    ensures start == -1 && s != [] ==> r == s[..|s| - 1]
    ensures start >= |s| ==> r == s
    ensures forall x :: x in r ==> x in s
  {
    var k := if start < 0 then (if |s| + start < 0 then 0 else |s| + start)
             else (if start > |s| then |s| else start);
    if k < |s| then s[..k] + s[k + 1..] else s
  }

  /** The first position holding this very account object, or -1. */
  function Position(accs: seq<Account>, a: Account): (i: int)
    ensures -1 <= i < |accs|
    ensures i == -1 <==> a !in accs
    ensures 0 <= i ==> accs[i] == a && a !in accs[..i]
  {
    if accs == [] then -1
    else if accs[0] == a then 0
    else
      var j := Position(accs[1..], a);
      assert accs == [accs[0]] + accs[1..];
      if j < 0 then -1 else
        assert accs[..j + 1] == [accs[0]] + accs[1..][..j];
        j + 1
  }

  /** When the account is the first holder of its handle, which is how login picks it,
      its position by identity is the position `findIndex` finds by handle. */
  lemma FirstHolderPosition(accs: seq<Account>, a: Account)
    requires Handles.FindIndex(HandlesOf(accs), a.userName) >= 0
    requires accs[Handles.FindIndex(HandlesOf(accs), a.userName)] == a
    ensures Position(accs, a) == Handles.FindIndex(HandlesOf(accs), a.userName)
  {
  }

  /** `updateUI` completes for an account with these movements: it has a deposit. The
      summary's interest, as written, throws on an account without one (script.js:164),
      and then the rest of the handler that called `updateUI` does not run. */
  predicate SummaryShown(movements: seq<real>)
  {
    exists i :: 0 <= i < |movements| && movements[i] > 0.0
  }

  /** SummaryShown is exactly the case in which the as-written interest has a value. */
  lemma SummaryShownExactly(movements: seq<real>, rate: real)
    ensures SummaryShown(movements) <==> InterestAsWritten(movements, rate).Some?
  {
    InterestAsWrittenAgrees(movements, rate);
  }

  /** The account a nullable reference denotes, as a frame. */
  function Those(a: Account?): set<Account> {
    if a == null then {} else {a}
  }

  /** The result of a handler: done (for a loan, approved and scheduled), refused with
      an alert, or aborted by a TypeError because no account is current. */
  datatype Outcome = Accepted | Refused | NoActiveSession

  class Bank {
    var accounts: seq<Account>
    /** `currentAccount`: set by login, never cleared. */
    var current: Account?
    /** The countdown: the value the next tick shows, and whether its interval runs. */
    var timer: int
    var ticking: bool
    /** Whether the app container is visible (opacity 1). */
    var shown: bool
    /** The sort button's toggle. */
    var sorted: bool
    /** Loans approved and not yet completed, in the order their timeouts fire. */
    var pendingLoans: seq<int>

    ghost function Objects(): set<Account>
      reads this
    {
      (set a | a in accounts) + (if current == null then {} else {current})
    }

    ghost predicate Valid()
      reads this, Objects()
    {
      && (forall a :: a in accounts ==> a.Paired())
      && (current != null ==> current.Paired())
      && (ticking ==> 0 <= timer < Countdown.Start)
      && (forall k :: 0 <= k < |pendingLoans| ==> pendingLoans[k] > 0)
    }

    /** The current account's cached balance is the sum of its movements. */
    ghost predicate BalanceCurrent()
      reads this, current
    {
      current != null ==> current.balance == Some(Balance(current.movements))
    }

    /** The countdown has just been (re)started and has shown its first value. */
    ghost predicate JustStarted()
      reads this
    {
      ticking && timer == Countdown.Start - 1
    }

    constructor (seed: seq<Account>)
      requires forall a :: a in seed ==> a.Paired()
      modifies set a | a in seed
      ensures Valid() && BalanceCurrent()
      ensures accounts == seed && current == null
      ensures !ticking && !shown && !sorted && pendingLoans == []
      ensures forall a :: a in seed ==> a.userName == Handles.Handle(a.owner)
      ensures forall a :: a in seed ==>
        a.movements == old(a.movements) && a.movementsDates == old(a.movementsDates) && a.balance == old(a.balance)
    {
      CreateUserNames(seed);
      accounts, current := seed, null;
      timer, ticking := 0, false;
      shown, sorted, pendingLoans := false, false, [];
    }

    /** `accounts.find(acc => acc.userName === handle)`: the first account with that
        handle, or null. */
    function Lookup(handle: string): (r: Account?)
      reads `accounts, (set a | a in accounts)`userName
      ensures r == null <==> handle !in HandlesOf(accounts)
      ensures r != null ==> exists i :: 0 <= i < |accounts| && r == accounts[i] && handle !in HandlesOf(accounts)[..i]
      ensures r != null ==> r in accounts && r.userName == handle
    {
      var i := IndexOf(handle);
      if i < 0 then null else accounts[i]
    }

    /** `accounts.findIndex(acc => acc.userName === handle)`: the position of the first
        account with that handle, or -1. */
    function IndexOf(handle: string): (i: int)
      reads `accounts, (set a | a in accounts)`userName
      ensures -1 <= i < |accounts|
      ensures i == -1 <==> handle !in HandlesOf(accounts)
      ensures 0 <= i ==> accounts[i].userName == handle && handle !in HandlesOf(accounts)[..i]
    {
      Handles.FindIndex(HandlesOf(accounts), handle)
    }

    /** `startLogOutUser`: a fresh countdown from 300 whose first tick runs at once,
        showing 05:00 and leaving 299 for the next tick. The previous interval, if any,
        is the one this replaces. */
    method StartLogOut() returns (text: string)
      requires Valid()
      modifies `timer, `ticking
      ensures Valid() && JustStarted()
      ensures text == "05:00"
    {
      Countdown.TimerTextEnds();
      text := Countdown.TimerText(Countdown.Start);
      timer := Countdown.Start - 1;
      ticking := true;
    }

    /** One second of the countdown (script.js:251-267): show the time left, log out
        when it shows 0 (stopping the interval and hiding the app), then count down. */
    method Tick() returns (text: string)
      requires Valid() && ticking
      modifies `timer, `ticking, `shown
      ensures Valid()
      ensures text == Countdown.TimerText(old(timer))
      ensures timer == old(timer) - 1
      ensures ticking <==> old(timer) > 0
      ensures shown <==> old(shown) && old(timer) > 0
    {
      text := Countdown.TimerText(timer);
      if timer == 0 {
        ticking := false;
        shown := false;
      }
      timer := timer - 1;
    }

    /** Letting a running countdown expire: it ticks once per remaining second plus
        once for 00:00, and then the session is hidden and the interval stopped. From a
        fresh start (299 left after the immediate tick) that is 300 more ticks, so the
        logout comes with the 301st tick overall. */
    method RunDown() returns (ticks: nat, last: string)
      requires Valid() && ticking
      modifies `timer, `ticking, `shown
      ensures Valid() && !ticking && !shown
      ensures ticks == old(timer) + 1
      ensures last == "00:00"
    {
      ticks, last := 0, [];
      while ticking
        invariant Valid()
        invariant ticking ==> ticks + timer == old(timer)
        invariant !ticking ==> ticks == old(timer) + 1 && !shown && last == Countdown.TimerText(0)
        decreases if ticking then timer + 1 else 0
      {
        last := Tick();
        ticks := ticks + 1;
      }
      Countdown.TimerTextEnds();
    }

    /** Login as intended: a wrong handle or PIN changes nothing. On success the account
        becomes current, its balance is recomputed, the countdown restarts and the app
        is shown (script.js:207-243). The summary is the intended one (Ledger.Interest),
        which never throws, so success always reaches the restart. */
    method Login(handle: string, pin: int) returns (ok: bool)
      requires Valid()
      modifies this, Those(Lookup(handle))`balance
      ensures Valid()
      ensures accounts == old(accounts) && sorted == old(sorted) && pendingLoans == old(pendingLoans)
      ensures var found := old(Lookup(handle));
        && (ok <==> found != null && found.pin == pin)
        && (found != null ==> found.movements == old(found.movements) && found.movementsDates == old(found.movementsDates))
        && (ok ==> current == found && BalanceCurrent() && JustStarted() && shown)
        && (!ok ==> current == old(current) && shown == old(shown))
        && (!ok ==> timer == old(timer) && ticking == old(ticking))
        && (!ok && found != null ==> found.balance == old(found.balance))
    {
      var found := Lookup(handle);
      ok := found != null && found.pin == pin;
      if ok {
        current := found;
        found.balance := Some(Balance(found.movements));
        var _ := StartLogOut();
        shown := true;
      }
    }

    /** Login as script.js:207-243 writes it: `currentAccount` is assigned the lookup's
        result before the PIN is checked, so a failed attempt still makes the named
        account (or nothing) current, without a recomputed balance. On a match the balance
        is recomputed, but when the summary throws (no deposit) the handler stops there:
        no restart, and the app's visibility is unchanged. */
    method LoginAsWritten(handle: string, pin: int) returns (ok: bool)
      requires Valid()
      modifies this, Those(Lookup(handle))`balance
      ensures Valid()
      ensures accounts == old(accounts) && sorted == old(sorted) && pendingLoans == old(pendingLoans)
      ensures var found := old(Lookup(handle));
        && (ok <==> found != null && found.pin == pin)
        && current == found
        && (found != null ==> found.movements == old(found.movements) && found.movementsDates == old(found.movementsDates))
        && (ok ==> BalanceCurrent())
        && (ok && SummaryShown(found.movements) ==> JustStarted() && shown)
        && (!ok || !SummaryShown(found.movements) ==> shown == old(shown) && timer == old(timer) && ticking == old(ticking))
        && (!ok && found != null ==> found.balance == old(found.balance) && current.pin != pin)
    {
      var found := Lookup(handle);
      current := found;
      ok := found != null && found.pin == pin;
      if ok {
        found.balance := Some(Balance(found.movements));
        if SummaryShown(found.movements) {
          var _ := StartLogOut();
          shown := true;
        }
      }
    }

    /** The four transfer conditions of script.js:297, checked against the current
        account's cached balance. */
    predicate TransferAllowed(to: string, amount: real)
      reads this, (set a | a in accounts), current
    {
      && amount > 0.0
      && current != null
      && current.balance.Some? && current.balance.value >= amount
      && Lookup(to) != null
      && Lookup(to).userName != current.userName
    }

    /** A transfer (script.js:286-319). Allowed, it debits the current account and credits
        the receiver by the amount, one dated movement each, and refreshes the sender's
        balance; refused, no account changes. Either way the countdown restarts, unless
        the handler aborts: on a missing current account, or in `updateUI` when the
        sender has no deposit left. With a fresh cached balance the latter cannot happen. */
    method Transfer(to: string, amount: real, senderStamp: int, receiverStamp: int) returns (outcome: Outcome)
      requires Valid()
      modifies this, Those(current)`movements, Those(current)`movementsDates, Those(current)`balance
      modifies Those(Lookup(to))`movements, Those(Lookup(to))`movementsDates
      ensures Valid()
      ensures accounts == old(accounts) && current == old(current)
      ensures shown == old(shown) && sorted == old(sorted) && pendingLoans == old(pendingLoans)
      ensures outcome == NoActiveSession <==> amount > 0.0 && current == null
      ensures outcome == Accepted <==> old(TransferAllowed(to, amount))
      ensures outcome == Refused ==> JustStarted()
      ensures outcome == Accepted && SummaryShown(current.movements) ==> JustStarted()
      ensures outcome == Accepted && old(BalanceCurrent()) ==> SummaryShown(current.movements)
      ensures outcome == NoActiveSession || (outcome == Accepted && !SummaryShown(current.movements)) ==>
        timer == old(timer) && ticking == old(ticking)
      ensures var receiver := old(Lookup(to));
        outcome == Accepted ==>
          && receiver != current
          && current.movements == old(current.movements) + [-amount]
          && current.movementsDates == old(current.movementsDates) + [senderStamp]
          && receiver.movements == old(receiver.movements) + [amount]
          && receiver.movementsDates == old(receiver.movementsDates) + [receiverStamp]
          && Balance(current.movements) == Balance(old(current.movements)) - amount
          && Balance(receiver.movements) == Balance(old(receiver.movements)) + amount
          && BalanceCurrent()
      ensures var receiver := old(Lookup(to));
        outcome != Accepted ==>
          && (current != null ==>
                current.movements == old(current.movements) && current.movementsDates == old(current.movementsDates)
                && current.balance == old(current.balance))
          && (receiver != null ==>
                receiver.movements == old(receiver.movements) && receiver.movementsDates == old(receiver.movementsDates))
    {
      var receiver := Lookup(to);
      if amount > 0.0 && current == null {
        return NoActiveSession;
      }
      if amount > 0.0 && current.balance.Some? && current.balance.value >= amount
         && receiver != null && receiver.userName != current.userName
      {
        if BalanceCurrent() {
          PositiveBalanceHasDeposit(current.movements);
        }
        ghost var before := current.movements;
        Pay(receiver, amount, senderStamp, receiverStamp);
        assert current.movements[..|before|] == before;
        outcome := Accepted;
      } else {
        outcome := Refused;
      }
      if outcome == Refused || SummaryShown(current.movements) {
        var _ := StartLogOut();
      }
    }

    /** The accepted branch of a transfer (script.js:306-313): the sender gets the
        withdrawal and the receiver the deposit, each with its own date, and the
        sender's cached balance is refreshed. */
    method Pay(receiver: Account, amount: real, senderStamp: int, receiverStamp: int)
      requires Valid() && current != null && receiver in accounts && receiver != current
      modifies current`movements, current`movementsDates, current`balance
      modifies receiver`movements, receiver`movementsDates
      ensures Valid() && BalanceCurrent()
      ensures current.movements == old(current.movements) + [-amount]
      ensures current.movementsDates == old(current.movementsDates) + [senderStamp]
      ensures receiver.movements == old(receiver.movements) + [amount]
      ensures receiver.movementsDates == old(receiver.movementsDates) + [receiverStamp]
      ensures Balance(current.movements) == Balance(old(current.movements)) - amount
      ensures Balance(receiver.movements) == Balance(old(receiver.movements)) + amount
    {
      BalanceAfterAppend(current.movements, -amount);
      BalanceAfterAppend(receiver.movements, amount);
      current.movements := current.movements + [-amount];
      receiver.movements := receiver.movements + [amount];
      current.movementsDates := current.movementsDates + [senderStamp];
      receiver.movementsDates := receiver.movementsDates + [receiverStamp];
      current.balance := Some(Balance(current.movements));
    }

    /** A loan request (script.js:322-354). The amount is floored; an approved loan is
        only queued, to be paid by CompleteLoan when its 1.5 s timeout fires; a refused
        one restarts the countdown. No account changes here. */
    method RequestLoan(input: real) returns (outcome: Outcome)
      requires Valid()
      modifies this
      ensures Valid()
      ensures accounts == old(accounts) && current == old(current) && shown == old(shown) && sorted == old(sorted)
      ensures var loan := LoanAmount(input);
        && (outcome == NoActiveSession <==> loan > 0 && current == null)
        && (outcome == Accepted <==> current != null && LoanApproved(current.movements, loan))
        && (outcome == Accepted ==> pendingLoans == old(pendingLoans) + [loan])
        && (outcome != Accepted ==> pendingLoans == old(pendingLoans))
        && (outcome == Refused ==> JustStarted())
        && (outcome != Refused ==> timer == old(timer) && ticking == old(ticking))
    {
      var loan := LoanAmount(input);
      if loan > 0 && current == null {
        return NoActiveSession;
      }
      if loan > 0 && SomeAtLeast(current.movements, loan as real * 0.1) {
        pendingLoans := pendingLoans + [loan];
        outcome := Accepted;
      } else {
        var _ := StartLogOut();
        outcome := Refused;
      }
    }

    /** The oldest pending loan's timeout fires: the loan is paid into whichever account
        is current at that moment (not necessarily the one that asked), that account's
        balance is refreshed and the countdown restarts. */
    method CompleteLoan(stamp: int) returns (outcome: Outcome)
      requires Valid() && pendingLoans != []
      modifies this, Those(current)`movements, Those(current)`movementsDates, Those(current)`balance
      ensures Valid()
      ensures accounts == old(accounts) && current == old(current) && shown == old(shown) && sorted == old(sorted)
      ensures pendingLoans == old(pendingLoans)[1..]
      ensures outcome == NoActiveSession <==> current == null
      ensures outcome == Accepted <==> current != null
      ensures current != null ==>
        && current.movements == old(current.movements) + [old(pendingLoans)[0] as real]
        && current.movementsDates == old(current.movementsDates) + [stamp]
        && Balance(current.movements) == Balance(old(current.movements)) + old(pendingLoans)[0] as real
        && BalanceCurrent()
        && SummaryShown(current.movements)
        && JustStarted()
      ensures current == null ==> timer == old(timer) && ticking == old(ticking)
    {
      var loan := pendingLoans[0];
      assert loan > 0;
      pendingLoans := pendingLoans[1..];
      if current == null {
        return NoActiveSession;
      }
      BalanceAfterAppend(current.movements, loan as real);
      current.movements := current.movements + [loan as real];
      current.movementsDates := current.movementsDates + [stamp];
      current.balance := Some(Balance(current.movements));
      var _ := StartLogOut();
      outcome := Accepted;
    }

    /** Closing an account as intended (script.js:357-375): when the handle and PIN are
        the current account's, the current account itself is removed from the list, the
        others keep their order, and the app is hidden; the countdown keeps running and
        the removed account stays current. If it is no longer listed, nothing is removed,
        even when another account shares its handle. */
    method Close(handle: string, pin: int) returns (outcome: Outcome)
      requires Valid()
      modifies `accounts, `shown
      ensures Valid()
      ensures outcome == NoActiveSession <==> current == null
      ensures outcome == Accepted <==> current != null && handle == current.userName && pin == current.pin
      ensures outcome != Accepted ==> accounts == old(accounts) && shown == old(shown)
      ensures outcome == Accepted ==> !shown
      ensures outcome == Accepted ==>
        var i := Position(old(accounts), current);
        && (0 <= i ==> accounts == old(accounts)[..i] + old(accounts)[i + 1..])
        && (i < 0 ==> accounts == old(accounts))
    {
      if current == null {
        return NoActiveSession;
      }
      if handle == current.userName && pin == current.pin {
        var i := Position(accounts, current);
        if 0 <= i {
          var before := accounts;
          accounts := accounts[..i] + accounts[i + 1..];
          assert forall a :: a in accounts ==> a in before;
        }
        shown := false;
        outcome := Accepted;
      } else {
        outcome := Refused;
      }
    }

    /** Closing as script.js:362-365 writes it: `findIndex` gives -1 when the current
        account was already removed, and `splice(-1, 1)` then removes the last account
        of the list, which belongs to someone else. */
    method CloseAsWritten(handle: string, pin: int) returns (outcome: Outcome)
      requires Valid()
      modifies `accounts, `shown
      ensures Valid()
      ensures outcome == NoActiveSession <==> current == null
      ensures outcome == Accepted <==> current != null && handle == current.userName && pin == current.pin
      ensures outcome != Accepted ==> accounts == old(accounts) && shown == old(shown)
      ensures outcome == Accepted ==> !shown
      ensures var i := old(IndexOf(handle));
        outcome == Accepted ==>
          && (0 <= i ==> accounts == old(accounts)[..i] + old(accounts)[i + 1..])
          && (i < 0 && old(accounts) != [] ==> accounts == old(accounts)[..|old(accounts)| - 1])
          && (i < 0 && old(accounts) == [] ==> accounts == [])
    {
      if current == null {
        return NoActiveSession;
      }
      if handle == current.userName && pin == current.pin {
        var before := accounts;
        var i := IndexOf(handle);
        accounts := SpliceOne(accounts, i);
        assert forall a :: a in accounts ==> a in before;
        shown := false;
        outcome := Accepted;
      } else {
        outcome := Refused;
      }
    }

    /** The sort button with the intended rows: flips the toggle and lays out the current
        account's movements in the new mode, each with its own date. Only the toggle
        changes; the account's movements are untouched. */
    method ToggleSort() returns (rows: Option<seq<Display.Row>>)
      requires Valid()
      modifies `sorted
      ensures Valid()
      ensures current == null ==> rows == None && sorted == old(sorted)
      ensures current != null ==>
        sorted == !old(sorted) && rows == Some(Display.Rows(current.movements, current.movementsDates, sorted))
    {
      if current == null {
        return None;
      }
      sorted := !sorted;
      rows := Some(Display.Rows(current.movements, current.movementsDates, sorted));
    }

    /** The sort button as script.js:381-387 writes it: the amounts are laid out in the
        new mode, but row `i` takes the date recorded at position `i`. */
    method ToggleSortAsWritten() returns (rows: Option<seq<Display.Row>>)
      requires Valid()
      modifies `sorted
      ensures Valid()
      ensures current == null ==> rows == None && sorted == old(sorted)
      ensures current != null ==>
        sorted == !old(sorted) && rows == Some(Display.RowsAsWritten(current.movements, current.movementsDates, sorted))
    {
      if current == null {
        return None;
      }
      sorted := !sorted;
      rows := Some(Display.RowsAsWritten(current.movements, current.movementsDates, sorted));
    }
  }

  /** The failed-login defect in general: a login attempt with a wrong PIN for an account
      that was displayed before (so it carries a cached balance) makes that account
      current, and a transfer that its stale balance covers is then paid out of it, by
      whoever is sitting at the page. */
  method WrongPinTransfer(bank: Bank, handle: string, wrongPin: int, to: string, amount: real,
                          senderStamp: int, receiverStamp: int)
      returns (victim: Account, ok: bool, outcome: Outcome)
    requires bank.Valid() && bank.Lookup(handle) != null && bank.Lookup(to) != null
    requires bank.Lookup(handle).pin != wrongPin && to != handle
    requires bank.Lookup(handle).balance != None && 0.0 < amount <= bank.Lookup(handle).balance.value
    modifies bank, bank.Lookup(handle), bank.Lookup(to)
    ensures victim == old(bank.Lookup(handle)) && !ok && bank.current == victim && outcome == Accepted
    ensures victim.movements == old(victim.movements) + [-amount]
  {
    victim := bank.Lookup(handle);
    ghost var receiver := bank.Lookup(to);
    ok := bank.LoginAsWritten(handle, wrongPin);
    assert bank.Lookup(to) == receiver && bank.current == victim;
    assert bank.Valid();
    outcome := bank.Transfer(to, amount, senderStamp, receiverStamp);
  }
}
