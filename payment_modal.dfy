/** The checkout dialog: its input formatters (card number, expiry, CVV, the
    mm:ss countdown), coupon codes, the ten-minute countdown, the wallets with
    their balances and top-ups, and the idle → processing → success steps of
    a payment. */
module PaymentModal {
  import opened Wrappers
  import opened JsText

  // ---------------------------------------------------------------- mm:ss

  /** `` `${m.toString().padStart(2, '0')}:${s.toString().padStart(2, '0')}` ``. */
  function FormatTime(seconds: nat): string {
    PadStart2(NatToString(seconds / 60)) + ":" + PadStart2(NatToString(seconds % 60))
  }

  /** A number below 100 is written with exactly two digits. */
  lemma TwoDigits(n: nat)
    requires n < 100
    ensures PadStart2(NatToString(n)) == [DigitChar(n / 10), DigitChar(n % 10)]
  {
    if n >= 10 {
      assert NatToString(n / 10) == [DigitChar(n / 10)];
    }
  }

  /** Below 6000 seconds the countdown reads as two digits of minutes, a
      colon, and two digits of seconds. */
  lemma FormatTimeShape(seconds: nat)
    requires seconds < 6000
    ensures var m, s := seconds / 60, seconds % 60;
      FormatTime(seconds) == [DigitChar(m / 10), DigitChar(m % 10), ':', DigitChar(s / 10), DigitChar(s % 10)]
  {
    var m, s := seconds / 60, seconds % 60;
    assert m < 100;
    var a, b := PadStart2(NatToString(m)), PadStart2(NatToString(s));
    assert FormatTime(seconds) == a + ":" + b;
    TwoDigits(m);
    TwoDigits(s);
  }

  /** From 6000 seconds on, the minutes take more than two digits. */
  lemma FormatTimeLong(seconds: nat)
    requires seconds >= 6000
    ensures |FormatTime(seconds)| > 5
  {
    var m := seconds / 60;
    assert m >= 100;
    assert NatToString(m) == NatToString(m / 10) + [DigitChar(m % 10)];
    assert m / 10 >= 10;
    assert |NatToString(m / 10)| >= 2;
  }

  /** The starting value shows as "10:00". */
  lemma FormatTimeStart()
    ensures FormatTime(600) == "10:00"
  {
    var m, s := 600 / 60, 600 % 60;
    assert m == 10 && s == 0;
    assert NatToString(m) == NatToString(1) + [DigitChar(0)];
    assert NatToString(m) == "10";
    assert NatToString(s) == "0";
    assert PadStart2("10") == "10";
    assert PadStart2("0") == "00";
  }

  // ---------------------------------------------------------------- card number

  /** `replace(/(\d{4})/g, '$1 ')` on a string of digits: a space after every
      complete group of four. */
  function SpaceAfterFours(d: string): string
    decreases |d|
  {
    if |d| >= 4 then d[..4] + " " + SpaceAfterFours(d[4..]) else d
  }

  /** The digits in groups of four, single spaces between the groups and
      none at either end. */
  function Grouped(d: string): string
    decreases |d|
  {
    if |d| <= 4 then d else d[..4] + " " + Grouped(d[4..])
  }

  function Take(s: string, n: nat): (r: string)
    ensures r == s[..if |s| < n then |s| else n]
  {
    if |s| <= n then s else s[..n]
  }

  /** `handleCardNumberChange`. */
  function FormatCard(input: string): string {
    Trim(SpaceAfterFours(Take(Digits(input), 16)))
  }

  predicate DigitOrSpace(c: char) { IsDigit(c) || c == ' ' }

  lemma {:induction false} SpaceAfterFoursShape(d: string)
    ensures SpaceAfterFours(d) == Grouped(d) + (if |d| > 0 && |d| % 4 == 0 then " " else "")
    decreases |d|
  {
    if |d| > 4 {
      SpaceAfterFoursShape(d[4..]);
    } else if |d| == 4 {
      assert d[4..] == [];
      assert d[..4] == d;
    }
  }

  /** The grouped digits: digits and spaces only, a digit at each end, one
      space per full group before the last, and the digits back once the
      spaces are removed. */
  lemma {:induction false} GroupedShape(d: string)
    requires AllDigits(d) && d != []
    ensures var g := Grouped(d);
      && |g| == |d| + (|d| - 1) / 4
      && IsDigit(g[0]) && IsDigit(g[|g| - 1])
      && (forall i :: 0 <= i < |g| ==> DigitOrSpace(g[i]))
      && Digits(g) == d
    decreases |d|
  {
    var g := Grouped(d);
    if |d| <= 4 {
      DigitsOfDigits(d);
    } else {
      var rest := d[4..];
      GroupedShape(rest);
      var gr := Grouped(rest);
      assert g == d[..4] + " " + gr;
      DigitsAppend(d[..4] + " ", gr);
      DigitsAppend(d[..4], " ");
      DigitsOfDigits(d[..4]);
      assert Digits(" ") == "";
      assert d == d[..4] + rest;
    }
  }

  /** Trimming a string that ends in one space, and otherwise starts and ends
      with non-white-space, removes just that space. */
  lemma TrimTrailingSpace(x: string)
    requires x != [] && !IsJsWhitespace(x[0]) && !IsJsWhitespace(x[|x| - 1])
    ensures Trim(x + " ") == x
  {
    var y := x + " ";
    assert TrimStart(y) == y;
    assert y[..|y| - 1] == x;
    assert TrimEnd(x) == x;
  }

  /** The card number field holds the first 16 digits typed, in groups of
      four with single spaces. */
  lemma FormatCardGroups(input: string)
    ensures FormatCard(input) == Grouped(Take(Digits(input), 16))
  {
    var d := Take(Digits(input), 16);
    SpaceAfterFoursShape(d);
    if d != [] {
      GroupedShape(d);
      var g := Grouped(d);
      DigitIsNotSpaceOrSign(g[0]);
      DigitIsNotSpaceOrSign(g[|g| - 1]);
      if |d| % 4 == 0 {
        TrimTrailingSpace(g);
        assert SpaceAfterFours(d) == g + " ";
      } else {
        TrimOfTrimmed(g);
        assert SpaceAfterFours(d) == g;
      }
    }
  }

  /** The card number field is at most 19 characters, and deleting its spaces
      gives back the first 16 digits typed. */
  lemma FormatCardProperties(input: string)
    ensures |FormatCard(input)| <= 19
    ensures Digits(FormatCard(input)) == Take(Digits(input), 16)
    ensures forall i :: 0 <= i < |FormatCard(input)| ==> DigitOrSpace(FormatCard(input)[i])
  {
    FormatCardGroups(input);
    var d := Take(Digits(input), 16);
    if d != [] {
      GroupedShape(d);
    }
  }

  /** Formatting the formatted card number changes nothing. */
  lemma FormatCardIdempotent(input: string)
    ensures FormatCard(FormatCard(input)) == FormatCard(input)
  {
    FormatCardProperties(input);
    var d := Take(Digits(input), 16);
    FormatCardGroups(input);
    FormatCardGroups(FormatCard(input));
    assert Take(d, 16) == d;
  }

  // ---------------------------------------------------------------- expiry and CVV

  /** `handleExpiryChange`. */
  function FormatExpiry(input: string): (r: string)
  {
    var d := Digits(input);
    if |d| >= 2 then d[..2] + "/" + d[2..if |d| < 4 then |d| else 4] else d
  }

  /** Fewer than two digits are kept as they are; otherwise the field is the
      first two digits, a slash, and up to two more. */
  lemma FormatExpiryShape(input: string)
    ensures var d, r := Digits(input), FormatExpiry(input);
      && |r| <= 5
      && (|d| < 2 ==> r == d)
      && (|d| >= 2 ==> r[..2] == d[..2] && r[2] == '/' && r[3..] == Take(d, 4)[2..])
  {
  }

  /** Formatting the formatted expiry changes nothing. */
  lemma FormatExpiryIdempotent(input: string)
    ensures FormatExpiry(FormatExpiry(input)) == FormatExpiry(input)
  {
    var d := Digits(input);
    if |d| >= 2 {
      var e := Take(d, 4);
      var r := FormatExpiry(input);
      assert r == e[..2] + "/" + e[2..];
      DigitsAppend(e[..2] + "/", e[2..]);
      DigitsAppend(e[..2], "/");
      assert Digits("/") == "";
      DigitsOfDigits(e[..2]);
      DigitsOfDigits(e[2..]);
      assert e == e[..2] + e[2..];
    } else {
      DigitsOfDigits(d);
    }
  }

  /** The CVV field: `replace(/\D/g, '').substring(0, 3)`. */
  function FormatCvv(input: string): (r: string)
    ensures |r| <= 3 && |r| <= |Digits(input)| && AllDigits(r)
    ensures r == Digits(input)[..|r|]
    ensures |r| < 3 ==> r == Digits(input)
  {
    Take(Digits(input), 3)
  }

  // ---------------------------------------------------------------- coupons

  const InvalidCoupon := "Invalid Coupon Code"

  /** The amount after a coupon, or None for an unknown code: MOVIE50 takes
      `Math.floor(amount * 0.5)`, WELCOME20 `Math.floor(amount * 0.8)`. */
  function Discounted(code: string, amount: nat): (r: Option<nat>)
    ensures ToUpper(code) == "MOVIE50" ==> r == Some(amount / 2)
    ensures ToUpper(code) == "WELCOME20" ==> r.Some? && 5 * r.value <= 4 * amount < 5 * r.value + 5
    ensures ToUpper(code) != "MOVIE50" && ToUpper(code) != "WELCOME20" ==> r == None
    ensures r.Some? ==> r.value <= amount
  {
    var c := ToUpper(code);
    if c == "MOVIE50" then Some(amount / 2)
    else if c == "WELCOME20" then Some(4 * amount / 5)
    else None
  }

  /** Codes are matched after upper-casing, so a code and its upper case
      are worth the same. */
  lemma CouponCaseInsensitive(code: string, amount: nat)
    ensures Discounted(ToUpper(code), amount) == Discounted(code, amount)
  {
    ToUpperIdempotent(code);
  }

  // ---------------------------------------------------------------- the dialog

  datatype Status = Idle | Processing | Succeeded
  datatype PayMethod = Card | Upi | Wallet

  const Wallets: seq<string> := ["Paytm", "PhonePe", "Amazon Pay", "Mobikwik"]

  const InitialBalances: map<string, int> :=
    map["Paytm" := 5000, "PhonePe" := 250, "Amazon Pay" := 1200, "Mobikwik" := 850]

  const StartSeconds: int := 600

  class Checkout {
    var isOpen: bool
    var status: Status
    var payMethod: PayMethod
    /** The amount the dialog was opened with, and the amount to pay now. */
    var initialAmount: nat
    var amount: nat
    var timeLeft: int
    var cardNumber: string
    var expiry: string
    var cvv: string
    var selectedWallet: Option<string>
    var walletBalances: map<string, int>
    var couponCode: string
    var couponApplied: bool
    var couponError: string
    /** How many times `onSuccess` has been called. */
    var successCalls: nat

    /** The countdown stays within [0, 600], coupons never raise the amount,
        every wallet has a balance and a selected wallet is one of them. */
    ghost predicate Valid()
      reads this
    {
      && 0 <= timeLeft <= StartSeconds
      && amount <= initialAmount
      && walletBalances.Keys == InitialBalances.Keys
      && (selectedWallet.Some? ==> selectedWallet.value in Wallets)
    }

    constructor (initial: nat)
      ensures Valid() && !isOpen && status == Idle && amount == initial && timeLeft == StartSeconds
      ensures walletBalances == InitialBalances && selectedWallet == None && successCalls == 0
    {
      isOpen, status, payMethod := false, Idle, Card;
      initialAmount, amount, timeLeft := initial, initial, StartSeconds;
      cardNumber, expiry, cvv := "", "", "";
      selectedWallet, walletBalances := None, InitialBalances;
      couponCode, couponApplied, couponError := "", false, "";
      successCalls := 0;
    }

    /** Opening the dialog resets every field except the wallet balances. */
    method Open(initial: nat)
      requires Valid()
      modifies this`isOpen, this`status, this`payMethod, this`initialAmount, this`amount, this`timeLeft
      modifies this`cardNumber, this`expiry, this`cvv, this`selectedWallet
      modifies this`couponCode, this`couponApplied, this`couponError
      ensures Valid()
      ensures isOpen && status == Idle && payMethod == Card
      ensures initialAmount == initial && amount == initial && timeLeft == StartSeconds
      ensures cardNumber == "" && expiry == "" && cvv == "" && selectedWallet == None
      ensures couponCode == "" && !couponApplied && couponError == ""
    {
      isOpen, status := true, Idle;
      Restart(initial);
      ClearForm();
      ClearCoupon();
    }

    /** The amount and countdown of a freshly opened dialog. */
    method Restart(initial: nat)
      requires Valid()
      modifies this`initialAmount, this`amount, this`timeLeft
      ensures Valid()
      ensures initialAmount == initial && amount == initial && timeLeft == StartSeconds
    {
      initialAmount, amount, timeLeft := initial, initial, StartSeconds;
    }

    /** The payment fields of a freshly opened dialog. */
    method ClearForm()
      requires Valid()
      modifies this`payMethod, this`cardNumber, this`expiry, this`cvv, this`selectedWallet
      ensures Valid()
      ensures payMethod == Card && cardNumber == "" && expiry == "" && cvv == "" && selectedWallet == None
    {
      payMethod, cardNumber, expiry, cvv, selectedWallet := Card, "", "", "", None;
    }

    /** The coupon fields of a freshly opened dialog. */
    method ClearCoupon()
      modifies this`couponCode, this`couponApplied, this`couponError
      ensures couponCode == "" && !couponApplied && couponError == ""
    {
      couponCode, couponApplied, couponError := "", false, "";
    }

    /** `onClose`. */
    method Close()
      modifies this`isOpen
      ensures !isOpen
    {
      isOpen := false;
    }

    /** One second of the countdown. It only runs while the dialog is open
        and idle; at zero it stays at zero and closes the dialog. */
    method Tick()
      requires Valid()
      modifies this`timeLeft, this`isOpen
      ensures Valid()
      ensures !old(isOpen) || old(status) != Idle ==> timeLeft == old(timeLeft) && isOpen == old(isOpen)
      ensures old(isOpen) && status == Idle && old(timeLeft) > 0 ==> timeLeft == old(timeLeft) - 1 && isOpen
      ensures old(isOpen) && status == Idle && old(timeLeft) <= 0 ==> timeLeft == 0 && !isOpen
      ensures timeLeft <= old(timeLeft)
    {
      if !isOpen || status != Idle {
        return;
      }
      if timeLeft <= 0 {
        timeLeft := 0;
        isOpen := false;
      } else {
        timeLeft := timeLeft - 1;
      }
    }

    /** The coupon field upper-cases what is typed. */
    method TypeCoupon(text: string)
      modifies this`couponCode
      ensures couponCode == ToUpper(text)
    {
      couponCode := ToUpper(text);
    }

    /** `handleApplyCoupon`. The Apply button is only rendered in the open,
        idle form while no coupon has been applied. */
    method ApplyCoupon()
      requires Valid() && isOpen && status == Idle && !couponApplied
      modifies this`amount, this`couponApplied, this`couponError
      ensures Valid() && amount <= old(amount)
      ensures Discounted(couponCode, old(amount)).Some? ==>
                amount == Discounted(couponCode, old(amount)).value && couponApplied && couponError == ""
      ensures Discounted(couponCode, old(amount)).None? ==>
                amount == old(amount) && couponApplied == old(couponApplied) && couponError == InvalidCoupon
    {
      var r := Discounted(couponCode, amount);
      if r.Some? {
        amount, couponApplied, couponError := r.value, true, "";
      } else {
        couponError := InvalidCoupon;
      }
    }

    method TypeCardNumber(text: string)
      modifies this`cardNumber
      ensures cardNumber == FormatCard(text)
    {
      cardNumber := FormatCard(text);
    }

    method TypeExpiry(text: string)
      modifies this`expiry
      ensures expiry == FormatExpiry(text)
    {
      expiry := FormatExpiry(text);
    }

    method TypeCvv(text: string)
      modifies this`cvv
      ensures cvv == FormatCvv(text)
    {
      cvv := FormatCvv(text);
    }

    method ChooseMethod(m: PayMethod)
      modifies this`payMethod
      ensures payMethod == m
    {
      payMethod := m;
    }

    method SelectWallet(w: string)
      requires Valid() && w in Wallets
      modifies this`selectedWallet
      ensures Valid() && selectedWallet == Some(w)
    {
      selectedWallet := Some(w);
    }

    /** Whether the pay button is disabled: paying by wallet with no wallet
        chosen or with a balance below the amount. */
    predicate SubmitDisabled()
      requires Valid()
      reads this
    {
      payMethod == Wallet && (selectedWallet.None? || walletBalances[selectedWallet.value] < amount)
    }

    /** "Add Funds": the chosen wallet's balance grows by `amount - balance + 100`,
        so it becomes the amount plus 100; the others keep theirs. The button
        is only rendered in the open, idle form for a chosen wallet whose
        balance is below the amount. */
    method AddFunds()
      requires Valid() && isOpen && status == Idle && selectedWallet.Some?
      requires walletBalances[selectedWallet.value] < amount
      modifies this`walletBalances
      ensures Valid()
      ensures walletBalances == old(walletBalances)[selectedWallet.value := amount + 100]
      ensures !SubmitDisabled()
    {
      var w := selectedWallet.value;
      var needed := amount - walletBalances[w] + 100;
      walletBalances := walletBalances[w := walletBalances[w] + needed];
    }

    /** `handleSubmit`: the payment starts processing. The form is only
        rendered in the open dialog while idle, and its button is disabled
        by `SubmitDisabled`. */
    method Submit()
      requires Valid() && isOpen && status == Idle && !SubmitDisabled()
      modifies this`status
      ensures Valid() && isOpen && status == Processing
    {
      status := Processing;
    }

    /** The first delay ends: the payment has gone through. */
    method Settle()
      requires status == Processing
      modifies this`status
      ensures status == Succeeded
    {
      status := Succeeded;
    }

    /** The second delay ends: `onSuccess()` and then `onClose()`. */
    method Finish()
      requires status == Succeeded
      modifies this`successCalls, this`isOpen
      ensures successCalls == old(successCalls) + 1 && !isOpen
    {
      successCalls := successCalls + 1;
      isOpen := false;
    }
  }
}
