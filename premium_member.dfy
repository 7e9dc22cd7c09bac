/**
 * A premium member (PremiumMember.java): a personal trainer, payments towards a fixed charge of
 * 50000, and a 10% discount that can be claimed once the charge is paid in full.
 */
module Premium {
  import opened Text
  import opened Dates
  import opened Members

  const PREMIUM_CHARGE: real := 50000.0
  const DISCOUNT_PERCENTAGE: real := 0.10
  const LOYALTY_PER_VISIT: int := 10

  datatype PremiumInfo = PremiumInfo(
    member: MemberInfo,
    personalTrainer: string,
    paymentComplete: bool,
    paidAmount: real,
    discountAmount: real)
  {
    /** Nothing has been paid beyond the charge. */
    predicate PaidWithinCharge()
    {
      paidAmount <= PREMIUM_CHARGE
    }

    /** Once the charge is covered the payment is complete. */
    predicate CoveredIsComplete()
    {
      paidAmount >= PREMIUM_CHARGE ==> paymentComplete
    }

    /** A discount is only ever held by a member who has paid in full. */
    predicate DiscountOnlyWhenComplete()
    {
      discountAmount > 0.0 ==> paymentComplete
    }
  }

  /** What the constructor builds: nothing paid, payment incomplete, no discount. */
  function NewPremiumInfo(member: MemberInfo, personalTrainer: string): (p: PremiumInfo)
    ensures p.member == member && p.personalTrainer == personalTrainer
    ensures !p.paymentComplete && p.paidAmount == 0.0 && p.discountAmount == 0.0
    ensures p.PaidWithinCharge() && p.CoveredIsComplete() && p.DiscountOnlyWhenComplete()
  {
    PremiumInfo(member, personalTrainer, false, 0.0, 0.0)
  }

  /** `markAttendance`: an active member gains a visit and 10 points; an inactive one is left as is. */
  function Attended(p: PremiumInfo): (q: PremiumInfo)
    ensures q.(member := p.member) == p
    ensures !p.member.activeStatus ==> q == p
    ensures p.member.activeStatus ==> q.member == p.member.(attendanceCount := p.member.attendanceCount + 1,
                                                            loyaltyPoints := p.member.loyaltyPoints + LOYALTY_PER_VISIT)
  {
    if p.member.activeStatus then
      p.(member := p.member.(attendanceCount := p.member.attendanceCount + 1,
                             loyaltyPoints := p.member.loyaltyPoints + LOYALTY_PER_VISIT))
    else p
  }

  /** `payDueAmount` accepts a payment exactly when it is positive and the charge is not yet paid. */
  predicate PaymentAccepted(p: PremiumInfo, amount: real)
  {
    amount > 0.0 && !p.paymentComplete
  }

  /** `payDueAmount(amount)`: the part of `amount` within the remaining balance is added, and the payment is complete once the charge is covered. */
  function Paid(p: PremiumInfo, amount: real): PremiumInfo
  {
    if amount <= 0.0 || p.paymentComplete then p
    else
      var remaining := PREMIUM_CHARGE - p.paidAmount;
      var applied := if amount > remaining then remaining else amount;
      var paid := p.paidAmount + applied;
      p.(paidAmount := paid, paymentComplete := paid >= PREMIUM_CHARGE)
  }

  function Min(a: real, b: real): real
  {
    if a <= b then a else b
  }

  /**
   * A rejected payment changes nothing; an accepted one adds min(amount, charge - paid), changes
   * nothing else but the completion flag, and leaves the payment complete exactly when the charge is covered.
   */
  lemma PaidSpec(p: PremiumInfo, amount: real)
    ensures !PaymentAccepted(p, amount) ==> Paid(p, amount) == p
    ensures PaymentAccepted(p, amount) ==>
      Paid(p, amount).paidAmount == p.paidAmount + Min(amount, PREMIUM_CHARGE - p.paidAmount)
    ensures PaymentAccepted(p, amount) ==>
      (Paid(p, amount).paymentComplete <==> Paid(p, amount).paidAmount >= PREMIUM_CHARGE)
    ensures Paid(p, amount).(paidAmount := p.paidAmount, paymentComplete := p.paymentComplete) == p
  {
  }

  /** A member who has paid no more than the charge still has not after any payment. */
  lemma PaidKeepsWithinCharge(p: PremiumInfo, amount: real)
    requires p.PaidWithinCharge()
    ensures Paid(p, amount).PaidWithinCharge()
  {
  }

  /** The balance of payments made in order. */
  function PaidAll(p: PremiumInfo, amounts: seq<real>): PremiumInfo
    decreases |amounts|
  {
    if amounts == [] then p else PaidAll(Paid(p, amounts[0]), amounts[1..])
  }

  /**
   * Whatever payments a new member makes: the total paid never exceeds the charge, the payment
   * is complete exactly when the charge is covered, and no discount appears.
   */
  lemma {:induction false} PaidAllFromNew(p: PremiumInfo, amounts: seq<real>)
    requires 0.0 <= p.paidAmount <= PREMIUM_CHARGE
    requires p.paymentComplete <==> p.paidAmount >= PREMIUM_CHARGE
    ensures 0.0 <= PaidAll(p, amounts).paidAmount <= PREMIUM_CHARGE
    ensures PaidAll(p, amounts).paymentComplete <==> PaidAll(p, amounts).paidAmount >= PREMIUM_CHARGE
    ensures PaidAll(p, amounts).discountAmount == p.discountAmount
    ensures PaidAll(p, amounts).paidAmount >= p.paidAmount
    decreases |amounts|
  {
    if amounts != [] {
      PaidAllFromNew(Paid(p, amounts[0]), amounts[1..]);
    }
  }

  /** Paying 60000 on a new member pays exactly the charge, and completes the payment. */
  lemma OverpaymentIsClamped(member: MemberInfo, trainer: string)
    ensures Paid(NewPremiumInfo(member, trainer), 60000.0).paidAmount == PREMIUM_CHARGE
    ensures Paid(NewPremiumInfo(member, trainer), 60000.0).paymentComplete
  {
  }

  /** Three payments of 20000 end at 50000: the third is cut to the 10000 still due. */
  lemma ThreeInstalments(member: MemberInfo, trainer: string)
    ensures PaidAll(NewPremiumInfo(member, trainer), [20000.0, 20000.0, 20000.0]).paidAmount == PREMIUM_CHARGE
    ensures PaidAll(NewPremiumInfo(member, trainer), [20000.0, 20000.0]).paidAmount == 40000.0
    ensures !PaidAll(NewPremiumInfo(member, trainer), [20000.0, 20000.0]).paymentComplete
    ensures PaidAll(NewPremiumInfo(member, trainer), [20000.0, 20000.0, 20000.0]).paymentComplete
  {
    var a := 20000.0;
    var p0 := NewPremiumInfo(member, trainer);
    var p1 := Paid(p0, a);
    var p2 := Paid(p1, a);
    var p3 := Paid(p2, a);
    assert p2.paidAmount == 40000.0 && !p2.paymentComplete;
    assert p3.paidAmount == PREMIUM_CHARGE && p3.paymentComplete;
    assert [a, a, a][1..] == [a, a] && [a, a][1..] == [a] && [a][1..] == [];
    assert PaidAll(p2, [a]) == p3;
    assert PaidAll(p1, [a]) == p2;
    assert PaidAll(p1, [a, a]) == p3;
    assert PaidAll(p0, [a, a]) == p2;
  }

  /** The discount the member would get: 10% of the charge once paid, nothing before. */
  function DiscountFor(p: PremiumInfo): real
  {
    if p.paymentComplete then PREMIUM_CHARGE * DISCOUNT_PERCENTAGE else 0.0
  }

  /** `calculateDiscount`: records 10% of the charge once the payment is complete; before that records nothing. */
  function Discounted(p: PremiumInfo): PremiumInfo
  {
    if p.paymentComplete then p.(discountAmount := PREMIUM_CHARGE * DISCOUNT_PERCENTAGE) else p
  }

  /**
   * The discount is 5000 after full payment and 0 before; the discount held is then that
   * amount, or unchanged; nothing else changes; and claiming it again changes nothing.
   */
  lemma DiscountSpec(p: PremiumInfo)
    ensures DiscountFor(p) == if p.paymentComplete then 5000.0 else 0.0
    ensures Discounted(p).discountAmount == if p.paymentComplete then 5000.0 else p.discountAmount
    ensures Discounted(p).(discountAmount := p.discountAmount) == p
    ensures Discounted(Discounted(p)) == Discounted(p)
  {
  }

  /** `revertPremiumMember`: reset, and payment, paid amount and discount cleared; the trainer stays. */
  function Reverted(p: PremiumInfo): (q: PremiumInfo)
    ensures q.member == Reset(p.member) && q.personalTrainer == p.personalTrainer
    ensures !q.paymentComplete && q.paidAmount == 0.0 && q.discountAmount == 0.0
  {
    PremiumInfo(Reset(p.member), p.personalTrainer, false, 0.0, 0.0)
  }

  /** `setPaidAmount`: sets the amount, and marks the payment complete when the amount covers the charge (never incomplete). */
  function WithPaidAmount(p: PremiumInfo, paidAmount: real): (q: PremiumInfo)
    ensures q.paidAmount == paidAmount
    ensures q.paymentComplete <==> p.paymentComplete || paidAmount >= PREMIUM_CHARGE
    ensures q.(paidAmount := p.paidAmount, paymentComplete := p.paymentComplete) == p
  {
    p.(paidAmount := paidAmount, paymentComplete := if paidAmount >= PREMIUM_CHARGE then true else p.paymentComplete)
  }

  /**
   * The discount invariant holds after every operation but the two raw setters that can break it
   * (`setDiscountAmount`, and `setPaymentComplete(false)`).
   */
  lemma TransitionsKeepDiscountInvariant(p: PremiumInfo, amount: real)
    requires p.DiscountOnlyWhenComplete()
    ensures Attended(p).DiscountOnlyWhenComplete()
    ensures Paid(p, amount).DiscountOnlyWhenComplete()
    ensures Discounted(p).DiscountOnlyWhenComplete()
    ensures Reverted(p).DiscountOnlyWhenComplete()
    ensures WithPaidAmount(p, amount).DiscountOnlyWhenComplete()
  {
  }

  /** The covered-means-complete invariant holds after every operation but the raw setters of the flag and the amount. */
  lemma TransitionsKeepCoveredIsComplete(p: PremiumInfo, amount: real)
    requires p.CoveredIsComplete()
    ensures Attended(p).CoveredIsComplete()
    ensures Paid(p, amount).CoveredIsComplete()
    ensures Discounted(p).CoveredIsComplete()
    ensures Reverted(p).CoveredIsComplete()
    ensures WithPaidAmount(p, amount).CoveredIsComplete()
  {
  }

  /** The fields of `toFileString`, in order: the tag, the common fields, then trainer, completion, paid amount and discount. */
  function FileFields(p: PremiumInfo): (fields: seq<string>)
    requires IsWholeAmount(p.paidAmount) && IsWholeAmount(p.discountAmount)
    ensures |fields| == 15 && fields[0] == "PREMIUM" && fields[11] == p.personalTrainer
  {
    var m := p.member;
    ["PREMIUM", m.id, m.name, m.phoneNumber, m.email, m.gender,
     FormatDate(m.dateOfBirth), FormatDate(m.membershipStartDate),
     FormatInt(m.attendanceCount), FormatInt(m.loyaltyPoints), FormatBool(m.activeStatus),
     p.personalTrainer, FormatBool(p.paymentComplete), FormatAmount(p.paidAmount), FormatAmount(p.discountAmount)]
  }

  class PremiumMember {
    const member: GymMember
    var personalTrainer: string
    var paymentComplete: bool
    var paidAmount: real
    var discountAmount: real

    function Info(): PremiumInfo
      reads this, member
    {
      PremiumInfo(member.Info(), personalTrainer, paymentComplete, paidAmount, discountAmount)
    }

    constructor (id: string, name: string, phoneNumber: string, email: string, gender: string,
                 dateOfBirth: Date, membershipStartDate: Date, personalTrainer: string)
      ensures fresh(member)
      ensures Info() == NewPremiumInfo(
        MemberInfo(id, name, phoneNumber, email, gender, dateOfBirth, membershipStartDate, 0, 0, false),
        personalTrainer)
    {
      member := new GymMember(id, name, phoneNumber, email, gender, dateOfBirth, membershipStartDate);
      this.personalTrainer := personalTrainer;
      paymentComplete := false;
      paidAmount := 0.0;
      discountAmount := 0.0;
    }

    method MarkAttendance()
      modifies member
      ensures Info() == Attended(old(Info()))
    {
      if member.activeStatus {
        member.attendanceCount := member.attendanceCount + 1;
        member.loyaltyPoints := member.loyaltyPoints + LOYALTY_PER_VISIT;
      }
    }

    method PayDueAmount(amount: real) returns (accepted: bool)
      modifies this
      ensures accepted == PaymentAccepted(old(Info()), amount)
      ensures Info() == Paid(old(Info()), amount)
    {
      if amount <= 0.0 {
        return false;
      }
      if paymentComplete {
        return false;
      }
      var remainingAmount := PREMIUM_CHARGE - paidAmount;
      var applied := amount;
      if applied > remainingAmount {
        applied := remainingAmount;
      }
      paidAmount := paidAmount + applied;
      if paidAmount >= PREMIUM_CHARGE {
        paymentComplete := true;
      }
      return true;
    }

    method CalculateDiscount() returns (discount: real)
      modifies this
      ensures discount == DiscountFor(old(Info()))
      ensures Info() == Discounted(old(Info()))
    {
      if paymentComplete {
        discountAmount := PREMIUM_CHARGE * DISCOUNT_PERCENTAGE;
        return discountAmount;
      } else {
        return 0.0;
      }
    }

    method RevertPremiumMember()
      modifies this, member
      ensures Info() == Reverted(old(Info()))
    {
      member.ResetMember();
      paymentComplete := false;
      paidAmount := 0.0;
      discountAmount := 0.0;
    }

    method SetPersonalTrainer(personalTrainer: string)
      modifies this
      ensures Info() == old(Info()).(personalTrainer := personalTrainer)
    {
      this.personalTrainer := personalTrainer;
    }

    method SetPaymentComplete(paymentComplete: bool)
      modifies this
      ensures Info() == old(Info()).(paymentComplete := paymentComplete)
    {
      this.paymentComplete := paymentComplete;
    }

    method SetPaidAmount(paidAmount: real)
      modifies this
      ensures Info() == WithPaidAmount(old(Info()), paidAmount)
    {
      this.paidAmount := paidAmount;
      if this.paidAmount >= PREMIUM_CHARGE {
        this.paymentComplete := true;
      }
    }

    method SetDiscountAmount(discountAmount: real)
      modifies this
      ensures Info() == old(Info()).(discountAmount := discountAmount)
    {
      this.discountAmount := discountAmount;
    }

    /** `toFileString`: the fields joined by commas. */
    function ToFileString(): string
      reads this, member
      requires IsWholeAmount(paidAmount) && IsWholeAmount(discountAmount)
    {
      Join(FileFields(Info()), ',')
    }
  }
}
