/**
 * A regular member (RegularMember.java): a plan tier whose price follows a fixed table, a referral
 * source, a removal reason, and an upgrade eligibility flag earned by attendance.
 */
module Regular {
  import opened Text
  import opened Dates
  import opened Members

  const ATTENDANCE_LIMIT: int := 30
  const LOYALTY_PER_VISIT: int := 5
  const BASIC_PRICE: real := 6500.0
  const STANDARD_PRICE: real := 12500.0
  const DELUXE_PRICE: real := 18500.0

  // ---------------------------------------------------------------------------------------------
  // Plans

  /** The table of `setPriceBasedOnPlan`, on the lower-cased plan name; an unknown name costs what Basic does. */
  function PlanPrice(plan: string): real
  {
    var p := ToLower(plan);
    if p == "basic" then BASIC_PRICE
    else if p == "standard" then STANDARD_PRICE
    else if p == "deluxe" then DELUXE_PRICE
    else BASIC_PRICE
  }

  // The three labels the form offers are priced by the first three rows of the table.

  lemma BasicLabelPrice()
    ensures IsKnownPlan("Basic") && PlanPrice("Basic") == BASIC_PRICE
  {
    assert "Basic" == ['B'] + "asic";
    ToLowerCapitalised('B', "asic");
  }

  lemma StandardLabelPrice()
    ensures PlanPrice("Standard") == STANDARD_PRICE
  {
    assert "Standard" == ['S'] + "tandard";
    ToLowerCapitalised('S', "tandard");
  }

  lemma DeluxeLabelPrice()
    ensures PlanPrice("Deluxe") == DELUXE_PRICE
  {
    assert "Deluxe" == ['D'] + "eluxe";
    ToLowerCapitalised('D', "eluxe");
  }

  predicate IsKnownPlan(plan: string)
  {
    var p := ToLower(plan);
    p == "basic" || p == "standard" || p == "deluxe"
  }

  /** The plan name `setPriceBasedOnPlan` leaves behind: a known name as given, anything else "Basic". */
  function NormalizedPlan(plan: string): (r: string)
    ensures IsKnownPlan(r)
    ensures IsKnownPlan(plan) ==> r == plan
    ensures !IsKnownPlan(plan) ==> r == "Basic"
    ensures PlanPrice(r) == PlanPrice(plan)
  {
    BasicLabelPrice();
    if IsKnownPlan(plan) then plan else "Basic"
  }

  /** Basic < Standard < Deluxe. */
  function Tier(plan: string): nat
    requires IsKnownPlan(plan)
  {
    var p := ToLower(plan);
    if p == "basic" then 0 else if p == "standard" then 1 else 2
  }

  /** The upgrade paths `upgradePlan` allows, compared without regard to letter case. */
  predicate IsUpgrade(current: string, next: string)
  {
    var c, n := ToLower(current), ToLower(next);
    (c == "basic" && (n == "standard" || n == "deluxe")) || (c == "standard" && n == "deluxe")
  }

  /** From a known plan, an upgrade is exactly a move to a known plan of a higher tier. */
  lemma UpgradeIsTierIncrease(current: string, next: string)
    requires IsKnownPlan(current)
    ensures IsUpgrade(current, next) <==> IsKnownPlan(next) && Tier(current) < Tier(next)
  {
  }

  /** An upgrade always moves to a strictly dearer plan. */
  lemma UpgradeRaisesPrice(current: string, next: string)
    requires IsUpgrade(current, next)
    ensures PlanPrice(current) < PlanPrice(next)
  {
  }

  /** Every plan price is a whole amount, written out as "6500.0", "12500.0" or "18500.0". */
  lemma PlanPriceIsWhole(plan: string)
    ensures IsWholeAmount(PlanPrice(plan))
  {
  }

  // ---------------------------------------------------------------------------------------------
  // The state of a regular member and its transitions

  datatype RegularInfo = RegularInfo(
    member: MemberInfo,
    membershipPlan: string,
    price: real,
    referralSource: string,
    eligibleForUpgrade: bool,
    removalReason: string)
  {
    /** The class invariant: the plan is one of the three, and the price is that plan's. */
    predicate PriceMatchesPlan()
    {
      IsKnownPlan(membershipPlan) && price == PlanPrice(membershipPlan)
    }
  }

  /** What the constructor builds: not yet eligible, no removal reason, the plan normalised and priced. */
  function NewRegularInfo(member: MemberInfo, membershipPlan: string, referralSource: string): (r: RegularInfo)
    ensures r.PriceMatchesPlan()
    ensures r.member == member && r.referralSource == referralSource
    ensures r.membershipPlan == NormalizedPlan(membershipPlan)
    ensures r.price == PlanPrice(membershipPlan) && !r.eligibleForUpgrade && r.removalReason == ""
  {
    RegularInfo(member, NormalizedPlan(membershipPlan), PlanPrice(membershipPlan), referralSource, false, "")
  }

  /** `markAttendance`: an active member gains a visit and 5 points, and is eligible from the 30th visit on. */
  function Attended(r: RegularInfo): RegularInfo
  {
    if r.member.activeStatus then
      var count := r.member.attendanceCount + 1;
      r.(member := r.member.(attendanceCount := count, loyaltyPoints := r.member.loyaltyPoints + LOYALTY_PER_VISIT),
         eligibleForUpgrade := r.eligibleForUpgrade || count >= ATTENDANCE_LIMIT)
    else r
  }

  /** `markAttendance` called `n` times in a row. */
  function AttendedTimes(r: RegularInfo, n: nat): RegularInfo
  {
    if n == 0 then r else Attended(AttendedTimes(r, n - 1))
  }

  /** Attendance never clears eligibility, and changes nothing but the counters and that flag. */
  lemma AttendedKeepsEligibilityAndPlan(r: RegularInfo)
    ensures r.eligibleForUpgrade ==> Attended(r).eligibleForUpgrade
    ensures Attended(r).(member := r.member, eligibleForUpgrade := r.eligibleForUpgrade) == r
    ensures !r.member.activeStatus ==> Attended(r) == r
  {
  }

  /**
   * `n` visits of an active member add `n` visits and `5n` points, and the member is eligible after
   * them exactly when already eligible or when at least one visit brought attendance to 30.
   */
  lemma {:induction false} AttendedTimesCounts(r: RegularInfo, n: nat)
    requires r.member.activeStatus
    ensures AttendedTimes(r, n).member ==
      r.member.(attendanceCount := r.member.attendanceCount + n,
                loyaltyPoints := r.member.loyaltyPoints + LOYALTY_PER_VISIT * n)
    ensures AttendedTimes(r, n).eligibleForUpgrade <==>
      r.eligibleForUpgrade || (n > 0 && r.member.attendanceCount + n >= ATTENDANCE_LIMIT)
    ensures AttendedTimes(r, n).(member := r.member, eligibleForUpgrade := r.eligibleForUpgrade) == r
  {
    if n > 0 {
      AttendedTimesCounts(r, n - 1);
    }
  }

  /**
   * From a new member just activated: loyalty is always five times attendance, and the member is
   * still not eligible after 29 visits but is after 30.
   */
  lemma FreshMemberAttendance(r: RegularInfo, n: nat)
    requires r.member.activeStatus && r.member.attendanceCount == 0 && r.member.loyaltyPoints == 0
    requires !r.eligibleForUpgrade
    ensures AttendedTimes(r, n).member.attendanceCount == n
    ensures AttendedTimes(r, n).member.loyaltyPoints == 5 * AttendedTimes(r, n).member.attendanceCount
    ensures AttendedTimes(r, n).eligibleForUpgrade <==> n >= 30
  {
    AttendedTimesCounts(r, n);
  }

  /** `revertRegularMember(reason)`: records the reason and resets; plan, price, referral and eligibility stay. */
  function Reverted(r: RegularInfo, reason: string): (s: RegularInfo)
    ensures s.member == Reset(r.member) && s.removalReason == reason
    ensures s.(member := r.member, removalReason := r.removalReason) == r
  {
    r.(removalReason := reason, member := Reset(r.member))
  }

  /** Every transition keeps the price matching the plan. */
  lemma TransitionsKeepPriceMatchingPlan(r: RegularInfo, plan: string, reason: string)
    requires r.PriceMatchesPlan()
    ensures Attended(r).PriceMatchesPlan()
    ensures Reverted(r, reason).PriceMatchesPlan()
    ensures IsUpgrade(r.membershipPlan, plan) ==> r.(membershipPlan := plan, price := PlanPrice(plan)).PriceMatchesPlan()
    ensures r.(membershipPlan := NormalizedPlan(plan), price := PlanPrice(plan)).PriceMatchesPlan()
  {
  }

  // ---------------------------------------------------------------------------------------------
  // The file line

  /** The fields of `toFileString`, in order: the tag, the common fields, then plan, price, referral, eligibility and reason. */
  function FileFields(r: RegularInfo): (fields: seq<string>)
    requires IsWholeAmount(r.price)
    ensures |fields| == 16 && fields[0] == "REGULAR"
    ensures fields[11] == r.membershipPlan && fields[13] == r.referralSource && fields[15] == r.removalReason
  {
    var m := r.member;
    ["REGULAR", m.id, m.name, m.phoneNumber, m.email, m.gender,
     FormatDate(m.dateOfBirth), FormatDate(m.membershipStartDate),
     FormatInt(m.attendanceCount), FormatInt(m.loyaltyPoints), FormatBool(m.activeStatus),
     r.membershipPlan, FormatAmount(r.price), r.referralSource, FormatBool(r.eligibleForUpgrade), r.removalReason]
  }

  // ---------------------------------------------------------------------------------------------
  // The class

  class RegularMember {
    const member: GymMember
    var eligibleForUpgrade: bool
    var membershipPlan: string
    var price: real
    var referralSource: string
    var removalReason: string

    function Info(): RegularInfo
      reads this, member
    {
      RegularInfo(member.Info(), membershipPlan, price, referralSource, eligibleForUpgrade, removalReason)
    }

    ghost predicate Valid()
      reads this
    {
      IsKnownPlan(membershipPlan) && price == PlanPrice(membershipPlan)
    }

    constructor (id: string, name: string, phoneNumber: string, email: string, gender: string,
                 dateOfBirth: Date, membershipStartDate: Date, membershipPlan: string, referralSource: string)
      ensures Valid() && fresh(member)
      ensures Info() == NewRegularInfo(
        MemberInfo(id, name, phoneNumber, email, gender, dateOfBirth, membershipStartDate, 0, 0, false),
        membershipPlan, referralSource)
    {
      member := new GymMember(id, name, phoneNumber, email, gender, dateOfBirth, membershipStartDate);
      this.membershipPlan := membershipPlan;
      this.referralSource := referralSource;
      eligibleForUpgrade := false;
      removalReason := "";
      new;
      SetPriceBasedOnPlan();
    }

    /** Prices the plan from the table; a plan outside it becomes "Basic". */
    method SetPriceBasedOnPlan()
      modifies this
      ensures Valid()
      ensures Info() == old(Info()).(membershipPlan := NormalizedPlan(old(membershipPlan)), price := PlanPrice(old(membershipPlan)))
    {
      var p := ToLower(membershipPlan);
      if p == "basic" {
        price := BASIC_PRICE;
      } else if p == "standard" {
        price := STANDARD_PRICE;
      } else if p == "deluxe" {
        price := DELUXE_PRICE;
      } else {
        price := BASIC_PRICE;
        membershipPlan := "Basic";
        BasicLabelPrice();
      }
    }

    method MarkAttendance()
      requires Valid()
      modifies this, member
      ensures Valid()
      ensures Info() == Attended(old(Info()))
    {
      if member.activeStatus {
        member.attendanceCount := member.attendanceCount + 1;
        member.loyaltyPoints := member.loyaltyPoints + LOYALTY_PER_VISIT;
        if member.attendanceCount >= ATTENDANCE_LIMIT {
          eligibleForUpgrade := true;
        }
      }
    }

    /**
     * Succeeds exactly on a move up the tiers, whatever the eligibility flag or the active status;
     * on success the plan is the name as given and the price is its price, on failure nothing changes.
     */
    method UpgradePlan(newPlan: string) returns (upgraded: bool)
      requires Valid()
      modifies this
      ensures Valid()
      ensures upgraded == IsUpgrade(old(membershipPlan), newPlan)
      ensures Info() == if upgraded then old(Info()).(membershipPlan := newPlan, price := PlanPrice(newPlan))
                        else old(Info())
    {
      var currentPlan := ToLower(membershipPlan);
      var upgradePlan := ToLower(newPlan);
      if (currentPlan == "basic" && (upgradePlan == "standard" || upgradePlan == "deluxe"))
         || (currentPlan == "standard" && upgradePlan == "deluxe")
      {
        membershipPlan := newPlan;
        SetPriceBasedOnPlan();
        upgraded := true;
      } else {
        upgraded := false;
      }
    }

    method RevertRegularMember(reason: string)
      requires Valid()
      modifies this, member
      ensures Valid()
      ensures Info() == Reverted(old(Info()), reason)
    {
      removalReason := reason;
      member.ResetMember();
    }

    method SetMembershipPlan(membershipPlan: string)
      modifies this
      ensures Valid()
      ensures Info() == old(Info()).(membershipPlan := NormalizedPlan(membershipPlan), price := PlanPrice(membershipPlan))
    {
      this.membershipPlan := membershipPlan;
      SetPriceBasedOnPlan();
    }

    method SetReferralSource(referralSource: string)
      requires Valid()
      modifies this
      ensures Valid()
      ensures Info() == old(Info()).(referralSource := referralSource)
    {
      this.referralSource := referralSource;
    }

    method SetEligibleForUpgrade(eligibleForUpgrade: bool)
      requires Valid()
      modifies this
      ensures Valid()
      ensures Info() == old(Info()).(eligibleForUpgrade := eligibleForUpgrade)
    {
      this.eligibleForUpgrade := eligibleForUpgrade;
    }

    method SetRemovalReason(removalReason: string)
      requires Valid()
      modifies this
      ensures Valid()
      ensures Info() == old(Info()).(removalReason := removalReason)
    {
      this.removalReason := removalReason;
    }

    /** `toFileString`: the fields joined by commas. */
    function ToFileString(): string
      reads this, member
      requires Valid()
    {
      PlanPriceIsWhole(membershipPlan);
      Join(FileFields(Info()), ',')
    }
  }
}
