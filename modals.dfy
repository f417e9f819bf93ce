/** The rules of the dialogs (components/Modals.tsx): the withdrawal form's
    limits and payout estimate, the spotlight plans, the gift catalogue and the
    spotlight teaser. Each dialog's form fields are passed in as values. */
module Modals {
  import opened Types
  import JsString

  // ---------------------------------------------------------------- withdraw

  const MinWithdraw: real := 5000.0
  const AdminFee: real := 6500.0

  /** `Math.max(0, withdrawAmount * 10 - adminFee)`: the payout estimate shown
      to the user, ten rupiah per point less the fixed fee. */
  function NetAmount(amount: real): real {
    if amount * 10.0 - AdminFee > 0.0 then amount * 10.0 - AdminFee else 0.0
  }

  /** The estimate is never negative, never below the fee-adjusted amount and
      never decreases as the amount grows. */
  lemma NetAmountBounds(a: real, b: real)
    requires a <= b
    ensures 0.0 <= NetAmount(a) <= NetAmount(b)
    ensures NetAmount(a) >= a * 10.0 - AdminFee
    ensures NetAmount(a) == 0.0 <==> a * 10.0 <= AdminFee
  {
  }

  /** `isValidAmount` */
  predicate IsValidAmount(amount: real, balance: real) {
    MinWithdraw <= amount <= balance
  }

  /** `canWithdraw` */
  predicate CanWithdraw(balance: real) {
    balance >= MinWithdraw
  }

  /** The amount the form is set to when the dialog opens. */
  function InitialAmount(balance: real): (r: real)
    ensures r <= balance && r <= MinWithdraw
    ensures r == balance || r == MinWithdraw
  {
    if balance >= MinWithdraw then MinWithdraw else balance
  }

  /** A valid amount implies the balance reaches the minimum at all, and the
      amount the dialog opens with is valid exactly when withdrawing is allowed. */
  lemma WithdrawLimits(amount: real, balance: real)
    ensures IsValidAmount(amount, balance) ==> CanWithdraw(balance)
    ensures IsValidAmount(InitialAmount(balance), balance) <==> CanWithdraw(balance)
  {
  }

  datatype WithdrawForm = WithdrawForm(amount: real, payoutMethod: string, bankName: string, account: string)

  const BankTransfer: string := "Bank Transfer"

  /** The form's state before the dialog opens. */
  const InitialForm: WithdrawForm := WithdrawForm(0.0, BankTransfer, "BCA", "")

  /** The effect that runs when the dialog opens (or the balance changes while it
      is open): only the amount is reset. */
  function OpenForm(form: WithdrawForm, balance: real): (r: WithdrawForm)
    ensures r.amount == InitialAmount(balance)
    ensures r.(amount := form.amount) == form
  {
    form.(amount := InitialAmount(balance))
  }

  /** The arguments `onWithdraw` is called with. */
  datatype WithdrawCall = WithdrawCall(amount: real, payoutMethod: string, account: string, bankName: Option<string>)

  /** `handleConfirm`: emits a call only for a valid amount and a non-empty
      account; the bank name goes along only with the bank-transfer method. */
  function Confirm(form: WithdrawForm, balance: real): (r: Option<WithdrawCall>)
    ensures r.Some? <==> IsValidAmount(form.amount, balance) && form.account != ""
    ensures r.Some? ==> r.value.amount == form.amount && r.value.payoutMethod == form.payoutMethod
                        && r.value.account == form.account
    ensures r.Some? ==> (r.value.bankName == if form.payoutMethod == BankTransfer then Some(form.bankName) else None)
  {
    if IsValidAmount(form.amount, balance) && form.account != "" then
      Some(WithdrawCall(form.amount, form.payoutMethod, form.account,
                        if form.payoutMethod == BankTransfer then Some(form.bankName) else None))
    else None
  }

  /** The submit button is enabled unless `!canWithdraw || !isValidAmount || !account`. */
  predicate SubmitEnabled(form: WithdrawForm, balance: real) {
    CanWithdraw(balance) && IsValidAmount(form.amount, balance) && form.account != ""
  }

  /** The button and the handler agree: the button is enabled exactly when
      confirming emits a withdrawal. */
  lemma SubmitEnabledIffConfirms(form: WithdrawForm, balance: real)
    ensures SubmitEnabled(form, balance) <==> Confirm(form, balance).Some?
  {
    WithdrawLimits(form.amount, balance);
  }

  // ---------------------------------------------------------------- spotlight

  /** `dayLabel` is the source's `label` field (a reserved word here). */
  datatype Plan = Plan(duration: int, cost: int, dayLabel: string, points: string)

  const Plans: seq<Plan> := [
    Plan(1, 200, "1 Hari", "200 Poin"),
    Plan(3, 400, "3 Hari", "400 Poin")
  ]

  /** `useState(PLANS[0])` */
  const DefaultPlan: Plan := Plans[0]

  /** `canAfford` in the spotlight dialog. */
  predicate CanAffordPlan(balance: real, plan: Plan) {
    balance >= plan.cost as real
  }

  /** The confirm button: disabled unless affordable; otherwise it passes the
      selected plan's duration and cost to `onConfirm`. */
  function ConfirmPlan(selected: Plan, balance: real): (r: Option<(int, int)>)
    ensures r.Some? <==> balance >= selected.cost as real
    ensures r.Some? ==> r.value == (selected.duration, selected.cost)
  {
    if CanAffordPlan(balance, selected) then Some((selected.duration, selected.cost)) else None
  }

  /** The plans: one day for 200 points and three days for 400; the cheaper
      plan is the default, so a balance that affords either plan affords the
      default one. */
  lemma PlanRules(balance: real, plan: Plan)
    requires plan in Plans
    ensures DefaultPlan == Plan(1, 200, "1 Hari", "200 Poin")
    ensures |Plans| == 2 && Plans[1].duration == 3 && Plans[1].cost == 400
    ensures CanAffordPlan(balance, plan) ==> CanAffordPlan(balance, DefaultPlan)
    ensures ConfirmPlan(DefaultPlan, balance).Some? <==> balance >= 200.0
  {
  }

  // ---------------------------------------------------------------- gifts

  datatype GiftItem = GiftItem(name: string, icon: string, price: int)

  const Gifts: seq<GiftItem> := [
    GiftItem("Bronze", "\U{1F949}", 10),
    GiftItem("Silver", "\U{1F948}", 50),
    GiftItem("Gold", "\U{1F947}", 200),
    GiftItem("Platinum", "\U{1F48E}", 1000)
  ]

  /** `canAfford` in the gift dialog. */
  predicate CanAffordGift(balance: real, g: GiftItem) {
    balance >= g.price as real
  }

  /** A click on a gift button: disabled unless affordable, otherwise `onGift(g)`. */
  function SelectGift(balance: real, g: GiftItem): (r: Option<GiftItem>)
    ensures r.Some? <==> balance >= g.price as real
    ensures r.Some? ==> r.value == g
  {
    if CanAffordGift(balance, g) then Some(g) else None
  }

  /** The catalogue is sorted by strictly increasing price, so the gifts a
      balance affords are always a prefix of it. */
  lemma GiftCatalogue(balance: real)
    ensures |Gifts| == 4
    ensures Gifts[0].price == 10 && Gifts[1].price == 50 && Gifts[2].price == 200 && Gifts[3].price == 1000
    ensures forall i, j :: 0 <= i < j < |Gifts| ==> Gifts[i].price < Gifts[j].price
    ensures forall i, j :: 0 <= i <= j < |Gifts| && CanAffordGift(balance, Gifts[j]) ==> CanAffordGift(balance, Gifts[i])
  {
  }

  // ---------------------------------------------------------------- teaser

  const TeaserLimit: nat := 200

  /** `getTeaser`: the caption when there is one; otherwise the content with every
      tag replaced by a space, cut to 200 characters and marked with `...`. */
  function Teaser(caption: string, content: string): (r: string)
    ensures caption != "" ==> r == caption
    ensures caption == "" ==> |r| <= TeaserLimit + 3 && JsString.TagFree(r)
    ensures caption == "" && |JsString.ReplaceTags(content, " ")| <= TeaserLimit ==>
              r == JsString.ReplaceTags(content, " ")
    ensures caption == "" && |JsString.ReplaceTags(content, " ")| > TeaserLimit ==>
              r == JsString.ReplaceTags(content, " ")[..TeaserLimit] + "..."
  {
    if caption != "" then caption
    else
      var textOnly := JsString.ReplaceTags(content, " ");
      JsString.ReplaceTagsIsTagFree(content, " ");
      if |textOnly| > TeaserLimit then
        JsString.TagFreePrefix(textOnly, TeaserLimit);
        JsString.TagFreeAppend2(textOnly[..TeaserLimit], "...");
        textOnly[..TeaserLimit] + "..."
      else textOnly
  }

  /** A short plain-text post without a caption is its own teaser. */
  lemma TeaserOfPlainText(content: string)
    requires '<' !in content && |content| <= TeaserLimit
    ensures Teaser("", content) == content
  {
    JsString.PlainTextUnchanged(content, " ");
  }
}
