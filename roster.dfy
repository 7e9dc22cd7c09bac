/**
 * The roster the GUI keeps (GymGUI.java): the ordered list of members, lookup by id, the
 * registration form's validation, adding a regular or premium member, the plan price shown in the
 * form, and loading members from the lines of a file.
 */
module GymRoster {
  import opened Wrappers
  import opened Text
  import opened Dates
  import opened Members
  import Regular
  import Premium
  import opened MemberFile

  /** A member of either kind; both hold the common `GymMember` part. */
  datatype Member =
    | AsRegular(regular: Regular.RegularMember)
    | AsPremium(premium: Premium.PremiumMember)
  {
    function Core(): GymMember
    {
      if AsRegular? then regular.member else premium.member
    }

    function Objects(): set<object>
    {
      if AsRegular? then {regular, regular.member} else {premium, premium.member}
    }

    function State(): MemberState
      reads Objects()
    {
      if AsRegular? then RegularState(regular.Info()) else PremiumState(premium.Info())
    }

    /** A regular member's price matches its plan. */
    ghost predicate Valid()
      reads Objects()
    {
      AsRegular? ==> regular.Valid()
    }
  }

  /** The objects the members are made of all exist already. */
  lemma {:induction false} FootprintAllocated(ms: seq<Member>)
    ensures forall o | o in Footprint(ms) :: allocated(o)
    decreases |ms|
  {
    if ms != [] {
      FootprintAllocated(ms[..|ms| - 1]);
    }
  }

  /** Every object the members are made of. */
  function Footprint(ms: seq<Member>): set<object>
    decreases |ms|
  {
    if ms == [] then {} else Footprint(ms[..|ms| - 1]) + ms[|ms| - 1].Objects()
  }

  function IdsOf(ms: seq<Member>): (ids: seq<string>)
    reads Footprint(ms)
    ensures |ids| == |ms| && forall i :: 0 <= i < |ms| ==> ids[i] == ms[i].Core().id
    decreases |ms|
  {
    if ms == [] then []
    else
      var last := ms[|ms| - 1];
      assert last.Core() in last.Objects();
      IdsOf(ms[..|ms| - 1]) + [last.Core().id]
  }

  function StatesOf(ms: seq<Member>): (states: seq<MemberState>)
    reads Footprint(ms)
    ensures |states| == |ms| && forall i :: 0 <= i < |ms| ==> states[i] == ms[i].State()
    decreases |ms|
  {
    if ms == [] then [] else StatesOf(ms[..|ms| - 1]) + [ms[|ms| - 1].State()]
  }

  /** What one more member at the end adds to each of the views above. */
  lemma Appended(ms: seq<Member>, m: Member)
    ensures Footprint(ms + [m]) == Footprint(ms) + m.Objects()
    ensures IdsOf(ms + [m]) == IdsOf(ms) + [m.Core().id]
    ensures StatesOf(ms + [m]) == StatesOf(ms) + [m.State()]
    ensures AllValid(ms + [m]) <==> AllValid(ms) && m.Valid()
  {
    assert (ms + [m])[..|ms|] == ms;
    assert m.Core() in m.Objects();
  }

  ghost predicate AllValid(ms: seq<Member>)
    reads Footprint(ms)
    decreases |ms|
  {
    ms == [] || (AllValid(ms[..|ms| - 1]) && ms[|ms| - 1].Valid())
  }

  predicate NoDuplicates(ids: seq<string>)
  {
    forall i, j :: 0 <= i < j < |ids| ==> ids[i] != ids[j]
  }

  /** The position of the first occurrence of `id`, if any. */
  function IndexOf(ids: seq<string>, id: string): (r: Option<nat>)
    ensures r.None? <==> id !in ids
    ensures r.Some? ==> r.value < |ids| && ids[r.value] == id && id !in ids[..r.value]
  {
    if ids == [] then None
    else if ids[0] == id then Some(0)
    else
      match IndexOf(ids[1..], id)
      case None => None
      case Some(k) =>
        assert ids[..k + 1] == [ids[0]] + ids[1..][..k];
        Some(k + 1)
  }

  // ---------------------------------------------------------------------------------------------
  // The registration form

  /** The text fields of the registration form, as typed. */
  datatype RegistrationForm = RegistrationForm(
    id: string,
    name: string,
    location: string,
    phone: string,
    email: string,
    referralSource: string,
    trainerName: string)

  /** One line of the validation message. */
  datatype FieldError =
    | IdRequired | IdNotANumber
    | NameRequired
    | LocationRequired
    | PhoneRequired | PhoneNotANumber
    | EmailRequired | EmailHasAt
    | ReferralSourceRequired
    | TrainerRequired

  /** The id check: present, and read as an `int`. */
  function IdErrors(id: string): (errors: seq<FieldError>)
    ensures |errors| <= 1
    ensures errors == [] <==> ParseInt(id).Some?
  {
    if id == [] then [IdRequired] else if ParseInt(id).None? then [IdNotANumber] else []
  }

  /** The phone check: present, and read as a `long`. */
  function PhoneErrors(phone: string): (errors: seq<FieldError>)
    ensures |errors| <= 1
    ensures errors == [] <==> ParseLong(phone).Some?
  {
    if phone == [] then [PhoneRequired] else if ParseLong(phone).None? then [PhoneNotANumber] else []
  }

  /** The email check: present, and without '@', since the domain is added on registration. */
  function EmailErrors(email: string): (errors: seq<FieldError>)
    ensures |errors| <= 1
    ensures errors == [] <==> email != [] && '@' !in email
  {
    if email == [] then [EmailRequired] else if '@' in email then [EmailHasAt] else []
  }

  /** A check that only asks for the field to be filled in. */
  function RequiredErrors(field: string, missing: FieldError): (errors: seq<FieldError>)
    ensures |errors| <= 1
    ensures errors == [] <==> field != []
  {
    if field == [] then [missing] else []
  }

  /**
   * `validateRequiredFields`: the problems found, in the order the message lists them. Each
   * field is trimmed first; a regular member needs a referral source, a premium member a trainer.
   */
  function ValidationErrors(form: RegistrationForm, isRegular: bool): (errors: seq<FieldError>)
    ensures |errors| <= 6
  {
    IdErrors(Trim(form.id))
    + RequiredErrors(Trim(form.name), NameRequired)
    + RequiredErrors(Trim(form.location), LocationRequired)
    + PhoneErrors(Trim(form.phone))
    + EmailErrors(Trim(form.email))
    + (if isRegular then RequiredErrors(Trim(form.referralSource), ReferralSourceRequired)
       else RequiredErrors(Trim(form.trainerName), TrainerRequired))
  }

  /** The form is accepted exactly when every check passes. */
  predicate ValidateRequiredFields(form: RegistrationForm, isRegular: bool)
  {
    ValidationErrors(form, isRegular) == []
  }

  lemma ValidationAcceptsExactly(form: RegistrationForm, isRegular: bool)
    ensures ValidateRequiredFields(form, isRegular) <==>
              ParseInt(Trim(form.id)).Some?
              && Trim(form.name) != [] && Trim(form.location) != []
              && ParseLong(Trim(form.phone)).Some?
              && Trim(form.email) != [] && '@' !in Trim(form.email)
              && (if isRegular then Trim(form.referralSource) != [] else Trim(form.trainerName) != [])
  {
  }

  /** The stored address: the trimmed, lower-cased input followed by "@gmail.com". */
  function StoredEmail(input: string): (email: string)
    ensures |email| >= 10 && email[|email| - 10..] == "@gmail.com"
  {
    ToLower(Trim(input)) + "@gmail.com"
  }

  /** A local part without '@' gives an address whose only '@' is the one before "gmail.com". */
  lemma OneAtInAddress(local: string)
    requires '@' !in local
    ensures var email := ToLower(local) + "@gmail.com";
            forall k :: 0 <= k < |email| ==> (email[k] == '@' <==> k == |email| - 10)
  {
    ToLowerKeepsAbsence(local, '@');
    var lowered := ToLower(local);
    var email := lowered + "@gmail.com";
    forall k | 0 <= k < |email|
      ensures email[k] == '@' <==> k == |email| - 10
    {
      if k < |lowered| {
        assert email[k] == lowered[k];
        assert lowered[k] in lowered;
      } else {
        assert email[k] == "@gmail.com"[k - |lowered|];
      }
    }
  }

  /** An address typed without '@' is stored with exactly one, the one before "gmail.com". */
  lemma StoredEmailHasOneAt(input: string)
    requires Trim(input) != [] && '@' !in Trim(input)
    ensures var email := StoredEmail(input);
            |email| > 10 && forall k :: 0 <= k < |email| ==> (email[k] == '@' <==> k == |email| - 10)
  {
    var local := Trim(input);
    OneAtInAddress(local);
    assert StoredEmail(input) == ToLower(local) + "@gmail.com";
  }

  /** A form that passes validation gives an address with exactly one '@', before "gmail.com". */
  lemma AcceptedEmailHasOneAt(form: RegistrationForm, isRegular: bool)
    requires ValidateRequiredFields(form, isRegular)
    ensures var email := StoredEmail(form.email);
            |email| > 10 && forall k :: 0 <= k < |email| ==> (email[k] == '@' <==> k == |email| - 10)
  {
    assert EmailErrors(Trim(form.email)) == [];
    StoredEmailHasOneAt(form.email);
  }

  /** `updatePriceField`: the price text shown for the selected plan; any other plan leaves the field as it was. */
  function UpdatePriceField(selectedPlan: string): Option<string>
  {
    match selectedPlan
    case "Basic" => Some("6500")
    case "Standard" => Some("12500")
    case "Deluxe" => Some("18500")
    case _ => None
  }

  /** The price shown in the form spells, in decimal digits, the price the member is charged. */
  lemma PriceFieldShowsPlanPrice(plan: string)
    requires plan == "Basic" || plan == "Standard" || plan == "Deluxe"
    ensures UpdatePriceField(plan).Some?
    ensures var text := UpdatePriceField(plan).value;
            AllDigits(text) && DigitsValue(text) as real == Regular.PlanPrice(plan)
  {
    if plan == "Basic" {
      BasicPriceShown();
    } else if plan == "Standard" {
      StandardPriceShown();
    } else {
      DeluxePriceShown();
    }
  }

  // The three rows of the switch, one at a time.

  lemma BasicPriceShown()
    ensures UpdatePriceField("Basic") == Some("6500") && AllDigits("6500")
    ensures DigitsValue("6500") as real == Regular.PlanPrice("Basic")
  {
    assert "6500"[..3] == "650" && "650"[..2] == "65" && "65"[..1] == "6" && "6"[..0] == [];
    Regular.BasicLabelPrice();
  }

  lemma StandardPriceShown()
    ensures UpdatePriceField("Standard") == Some("12500") && AllDigits("12500")
    ensures DigitsValue("12500") as real == Regular.PlanPrice("Standard")
  {
    assert "12500"[..4] == "1250" && "1250"[..3] == "125" && "125"[..2] == "12" && "12"[..1] == "1" && "1"[..0] == [];
    Regular.StandardLabelPrice();
  }

  lemma DeluxePriceShown()
    ensures UpdatePriceField("Deluxe") == Some("18500") && AllDigits("18500")
    ensures DigitsValue("18500") as real == Regular.PlanPrice("Deluxe")
  {
    assert "18500"[..4] == "1850" && "1850"[..3] == "185" && "185"[..2] == "18" && "18"[..1] == "1" && "1"[..0] == [];
    Regular.DeluxeLabelPrice();
  }

  /** The common part of a member registered from the form. */
  function RegisteredInfo(form: RegistrationForm, male: bool, dob: Date, start: Date): (m: MemberInfo)
    ensures m.id == Trim(form.id) && m.email == StoredEmail(form.email)
    ensures m.name == Trim(form.name) && m.phoneNumber == Trim(form.phone)
    ensures m.gender == (if male then "Male" else "Female")
    ensures m.dateOfBirth == dob && m.membershipStartDate == start
    ensures m.attendanceCount == 0 && m.loyaltyPoints == 0 && !m.activeStatus
  {
    MemberInfo(Trim(form.id), Trim(form.name), Trim(form.phone), StoredEmail(form.email),
               if male then "Male" else "Female", dob, start, 0, 0, false)
  }

  /** What pressing "add" does. */
  datatype AddOutcome =
    | Rejected(errors: seq<FieldError>)   // the validation message lists these
    | DuplicateId                         // "Member ID already exists"
    | InvalidDate                         // a picked day the month lacks: `LocalDate.of` throws
    | Added

  /**
   * The decision made in `addRegularMember` and `addPremiumMember`: validation first, then the
   * trimmed id against the roster, then the two picked dates.
   */
  function AddOutcomeFor(form: RegistrationForm, isRegular: bool, ids: seq<string>,
                         dob: CalendarDate, start: CalendarDate): (r: AddOutcome)
    ensures r == Added ==> IsValidDate(dob) && IsValidDate(start)
  {
    var errors := ValidationErrors(form, isRegular);
    if errors != [] then Rejected(errors)
    else if Trim(form.id) in ids then DuplicateId
    else if !IsValidDate(dob) || !IsValidDate(start) then InvalidDate
    else Added
  }

  /** Which outcome each situation gets: the checks come in the order the GUI makes them. */
  lemma AddOutcomeCases(form: RegistrationForm, isRegular: bool, ids: seq<string>, dob: CalendarDate, start: CalendarDate)
    ensures var r := AddOutcomeFor(form, isRegular, ids, dob, start);
            && (r.Rejected? <==> !ValidateRequiredFields(form, isRegular))
            && (r.Rejected? ==> r.errors == ValidationErrors(form, isRegular) && r.errors != [])
            && (r == DuplicateId <==> ValidateRequiredFields(form, isRegular) && Trim(form.id) in ids)
            && (r == InvalidDate <==>
                  ValidateRequiredFields(form, isRegular) && Trim(form.id) !in ids
                  && !(IsValidDate(dob) && IsValidDate(start)))
            && (r == Added <==>
                  ValidateRequiredFields(form, isRegular) && Trim(form.id) !in ids && IsValidDate(dob) && IsValidDate(start))
  {
    var r := AddOutcomeFor(form, isRegular, ids, dob, start);
    if ValidationErrors(form, isRegular) != [] {
      assert r.Rejected?;
    } else if Trim(form.id) in ids {
      assert r == DuplicateId;
    } else if !(IsValidDate(dob) && IsValidDate(start)) {
      assert r == InvalidDate;
    } else {
      assert r == Added;
    }
  }

  /** Appending a member whose id is not yet there keeps the ids distinct. */
  lemma AppendNewIdKeepsUnique(ids: seq<string>, id: string)
    requires NoDuplicates(ids) && id !in ids
    ensures NoDuplicates(ids + [id])
  {
    forall i, j | 0 <= i < j < |ids| + 1
      ensures (ids + [id])[i] != (ids + [id])[j]
    {
      if j == |ids| {
        assert ids[i] in ids;
      }
    }
  }

  /** What loading a file reports. */
  datatype LoadOutcome =
    | Loaded(count: nat)   // "<count> members loaded successfully"
    | LoadFailed           // "Error reading file": a date or number did not parse

  // ---------------------------------------------------------------------------------------------

  class Roster {
    /** The members in insertion (or file) order. */
    var members: seq<Member>

    function Ids(): seq<string>
      reads this, Footprint(members)
    {
      IdsOf(members)
    }

    function States(): seq<MemberState>
      reads this, Footprint(members)
    {
      StatesOf(members)
    }

    /** Every regular member's price matches its plan; the roster is not one of its members' objects. */
    ghost predicate Valid()
      reads this, Footprint(members)
    {
      this !in Footprint(members) && AllValid(members)
    }

    constructor ()
      ensures members == [] && Valid()
    {
      members := [];
    }

    /** `findMemberById`: the first member whose id equals `id`, or none. */
    method FindMemberById(id: string) returns (found: Option<Member>)
      ensures found.None? <==> id !in Ids()
      ensures found.Some? ==> IndexOf(Ids(), id).Some? && found.value == members[IndexOf(Ids(), id).value]
    {
      var i := 0;
      while i < |members|
        invariant 0 <= i <= |members|
        invariant id !in Ids()[..i]
      {
        var candidate := members[i];
        assert candidate.Core() in candidate.Objects();
        if candidate.Core().id == id {
          return Some(candidate);
        }
        assert Ids()[..i + 1] == Ids()[..i] + [Ids()[i]];
        i := i + 1;
      }
      assert Ids()[..i] == Ids();
      return None;
    }

    /**
     * The checks both "add" buttons make before anything changes: the form, then the trimmed id
     * looked up in the roster, then the two picked dates.
     */
    method CheckRegistration(form: RegistrationForm, isRegular: bool, dob: CalendarDate, start: CalendarDate)
      returns (outcome: AddOutcome)
      ensures outcome == AddOutcomeFor(form, isRegular, Ids(), dob, start)
    {
      var errors := ValidationErrors(form, isRegular);
      if errors != [] {
        return Rejected(errors);
      }
      var existing := FindMemberById(Trim(form.id));
      if existing.Some? {
        return DuplicateId;
      }
      // `LocalDate.of` on the picked year, month and day throws for a day the month lacks.
      if !IsValidDate(dob) || !IsValidDate(start) {
        return InvalidDate;
      }
      return Added;
    }

    /** `addRegularMember`, from the form, the gender button, the two picked dates and the plan chosen. */
    method AddRegularMember(form: RegistrationForm, male: bool, dob: CalendarDate, start: CalendarDate, plan: string)
      returns (outcome: AddOutcome)
      requires Valid()
      modifies this
      ensures Valid()
      ensures outcome == AddOutcomeFor(form, true, old(Ids()), dob, start)
      ensures outcome != Added ==> members == old(members)
      ensures outcome == Added ==> |members| == |old(members)| + 1 && members[..|old(members)|] == old(members)
      ensures outcome == Added ==>
                members[|old(members)|].AsRegular? && fresh(members[|old(members)|].regular) && fresh(members[|old(members)|].Core())
      ensures outcome == Added ==>
                members[|old(members)|].State() ==
                  RegularState(Regular.NewRegularInfo(RegisteredInfo(form, male, dob, start), plan, Trim(form.referralSource)))
      ensures Ids() == if outcome == Added then old(Ids()) + [Trim(form.id)] else old(Ids())
      ensures NoDuplicates(old(Ids())) ==> NoDuplicates(Ids())
    {
      FootprintAllocated(members);
      outcome := CheckRegistration(form, true, dob, start);
      if outcome == Added {
        var member := RegisterRegular(RegisteredInfo(form, male, dob, start), plan, Trim(form.referralSource));
        assert members[..|old(members)|] == old(members) && members[|old(members)|] == member;
      } else {
        assert members == old(members);
      }
    }

    /** `addPremiumMember`, from the form, the gender button and the two picked dates. */
    method AddPremiumMember(form: RegistrationForm, male: bool, dob: CalendarDate, start: CalendarDate)
      returns (outcome: AddOutcome)
      requires Valid()
      modifies this
      ensures Valid()
      ensures outcome == AddOutcomeFor(form, false, old(Ids()), dob, start)
      ensures outcome != Added ==> members == old(members)
      ensures outcome == Added ==> |members| == |old(members)| + 1 && members[..|old(members)|] == old(members)
      ensures outcome == Added ==>
                members[|old(members)|].AsPremium? && fresh(members[|old(members)|].premium) && fresh(members[|old(members)|].Core())
      ensures outcome == Added ==>
                members[|old(members)|].State() ==
                  PremiumState(Premium.NewPremiumInfo(RegisteredInfo(form, male, dob, start), Trim(form.trainerName)))
      ensures Ids() == if outcome == Added then old(Ids()) + [Trim(form.id)] else old(Ids())
      ensures NoDuplicates(old(Ids())) ==> NoDuplicates(Ids())
    {
      FootprintAllocated(members);
      outcome := CheckRegistration(form, false, dob, start);
      if outcome == Added {
        var member := RegisterPremium(RegisteredInfo(form, male, dob, start), Trim(form.trainerName));
        assert members[..|old(members)|] == old(members) && members[|old(members)|] == member;
      } else {
        assert members == old(members);
      }
    }

    /** `members.add`: the member goes at the end; the others, and every member object, are untouched. */
    method Append(m: Member)
      requires Valid() && m.Valid() && this !in m.Objects()
      modifies this
      ensures Valid()
      ensures members == old(members) + [m]
      ensures Ids() == old(Ids()) + [m.Core().id]
      ensures States() == old(States()) + [m.State()]
      ensures Footprint(members) == old(Footprint(members)) + m.Objects()
    {
      members := members + [m];
      Appended(old(members), m);
    }

    /** A new regular member as the form registers it, through the constructor alone, appended. */
    method RegisterRegular(info: MemberInfo, plan: string, referral: string) returns (m: Member)
      requires Valid()
      requires info.attendanceCount == 0 && info.loyaltyPoints == 0 && !info.activeStatus
      modifies this
      ensures Valid()
      ensures members == old(members) + [m]
      ensures m.AsRegular? && fresh(m.regular) && fresh(m.Core())
      ensures m.State() == RegularState(Regular.NewRegularInfo(info, plan, referral))
      ensures Ids() == old(Ids()) + [info.id]
      ensures info.id !in old(Ids()) && NoDuplicates(old(Ids())) ==> NoDuplicates(Ids())
    {
      FootprintAllocated(members);
      if info.id !in Ids() && NoDuplicates(Ids()) {
        AppendNewIdKeepsUnique(Ids(), info.id);
      }
      var member := new Regular.RegularMember(info.id, info.name, info.phoneNumber, info.email, info.gender,
                                              info.dateOfBirth, info.membershipStartDate, plan, referral);
      m := AsRegular(member);
      Append(m);
    }

    /** A new premium member as the form registers it, through the constructor alone, appended. */
    method RegisterPremium(info: MemberInfo, trainer: string) returns (m: Member)
      requires Valid()
      requires info.attendanceCount == 0 && info.loyaltyPoints == 0 && !info.activeStatus
      modifies this
      ensures Valid()
      ensures members == old(members) + [m]
      ensures m.AsPremium? && fresh(m.premium) && fresh(m.Core())
      ensures m.State() == PremiumState(Premium.NewPremiumInfo(info, trainer))
      ensures Ids() == old(Ids()) + [info.id]
      ensures info.id !in old(Ids()) && NoDuplicates(old(Ids())) ==> NoDuplicates(Ids())
    {
      FootprintAllocated(members);
      if info.id !in Ids() && NoDuplicates(Ids()) {
        AppendNewIdKeepsUnique(Ids(), info.id);
      }
      var member := new Premium.PremiumMember(info.id, info.name, info.phoneNumber, info.email, info.gender,
                                              info.dateOfBirth, info.membershipStartDate, trainer);
      m := AsPremium(member);
      Append(m);
    }

    /** A member built from a regular line as the importer builds it: constructor, then setters. */
    static method RegularFromRow(row: LineParse) returns (member: Regular.RegularMember)
      requires row.RegularRow?
      ensures fresh(member) && fresh(member.member) && member.Valid()
      ensures member.Info() == RowState(row).regular
    {
      var m := row.member;
      member := new Regular.RegularMember(m.id, m.name, m.phoneNumber, m.email, m.gender,
                                          m.dateOfBirth, m.membershipStartDate, row.plan, row.referral);
      member.member.SetAttendanceCount(m.attendanceCount);
      member.member.SetLoyaltyPoints(m.loyaltyPoints);
      member.member.SetActiveStatus(m.activeStatus);
      member.SetEligibleForUpgrade(row.eligible);
      if row.removalReason.Some? {
        member.SetRemovalReason(row.removalReason.value);
      }
    }

    /** A member built from a premium line: completion is set before the paid amount. */
    static method PremiumFromRow(row: LineParse) returns (member: Premium.PremiumMember)
      requires row.PremiumRow?
      ensures fresh(member) && fresh(member.member)
      ensures member.Info() == RowState(row).premium
    {
      var m := row.member;
      member := new Premium.PremiumMember(m.id, m.name, m.phoneNumber, m.email, m.gender,
                                          m.dateOfBirth, m.membershipStartDate, row.trainer);
      member.member.SetAttendanceCount(m.attendanceCount);
      member.member.SetLoyaltyPoints(m.loyaltyPoints);
      member.member.SetActiveStatus(m.activeStatus);
      member.SetPaymentComplete(row.paymentComplete);
      member.SetPaidAmount(row.paidAmount);
      member.SetDiscountAmount(row.discountAmount);
    }

    /** Builds the member a line describes and appends it. */
    method AppendRow(row: LineParse)
      requires Valid() && row.IsRow()
      modifies this
      ensures Valid()
      ensures |members| == |old(members)| + 1
      ensures States() == old(States()) + [RowState(row)]
    {
      FootprintAllocated(members);
      if row.RegularRow? {
        var member := RegularFromRow(row);
        Append(AsRegular(member));
      } else {
        var member := PremiumFromRow(row);
        Append(AsPremium(member));
      }
    }

    /**
     * `readFromFile` over the lines of the chosen file: the roster is cleared, then each line is
     * skipped, turned into a new member appended at the end, or, when a date or number does not
     * parse, ends the load with the members read so far kept.
     */
    method ReadFromFile(lines: seq<string>) returns (outcome: LoadOutcome)
      modifies this
      ensures Valid()
      ensures States() == Imported(lines).states
      ensures outcome == if Imported(lines).completed then Loaded(|Imported(lines).states|) else LoadFailed
    {
      ghost var rows := ParsedLines(lines);
      members := [];
      var count := 0;
      var i := 0;
      while i < |lines|
        invariant 0 <= i <= |lines|
        invariant ImportRows(rows[..i]).completed
        invariant States() == ImportRows(rows[..i]).states
        invariant count == |members|
        invariant Valid()
      {
        var row := ParseLine(lines[i]);
        MapSeqAt(ParseLine, lines, i);
        ImportRowsStep(rows[..i], row);
        TakeOneMore(rows, i);
        if row.Malformed? {
          ImportRowsAfterFailure(rows[..i + 1], rows[i + 1..]);
          TakeAndDrop(rows, i + 1);
          return LoadFailed;
        } else if row.IsRow() {
          AppendRow(row);
          count := count + 1;
        }
        i := i + 1;
      }
      assert rows[..i] == rows;
      return Loaded(count);
    }
  }
}
