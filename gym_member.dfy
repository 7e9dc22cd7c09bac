/**
 * What every gym member has (GymMember.java): identity, contact details, two dates, the attendance
 * and loyalty counters and the active flag, with activation, deactivation, reset and the plain
 * setters. The two member kinds hold one of these objects (see RegularMember and PremiumMember).
 */
module Members {
  import opened Dates

  /** The value of a member's common fields at one moment. */
  datatype MemberInfo = MemberInfo(
    id: string,
    name: string,
    phoneNumber: string,
    email: string,
    gender: string,
    dateOfBirth: Date,
    membershipStartDate: Date,
    attendanceCount: int,
    loyaltyPoints: int,
    activeStatus: bool)

  /** `resetMember`: counters back to zero and inactive; identity, contact details and dates kept. */
  function Reset(m: MemberInfo): (r: MemberInfo)
    ensures r.attendanceCount == 0 && r.loyaltyPoints == 0 && !r.activeStatus
    ensures r.(attendanceCount := m.attendanceCount, loyaltyPoints := m.loyaltyPoints, activeStatus := m.activeStatus) == m
  {
    m.(attendanceCount := 0, loyaltyPoints := 0, activeStatus := false)
  }

  class GymMember {
    var id: string
    var name: string
    var phoneNumber: string
    var email: string
    var gender: string
    var dateOfBirth: Date
    var membershipStartDate: Date
    var attendanceCount: int
    var loyaltyPoints: int
    var activeStatus: bool

    function Info(): MemberInfo
      reads this
    {
      MemberInfo(id, name, phoneNumber, email, gender, dateOfBirth, membershipStartDate,
                 attendanceCount, loyaltyPoints, activeStatus)
    }

    /** A new member has attended nothing, has no loyalty points and is not active. */
    constructor (id: string, name: string, phoneNumber: string, email: string, gender: string,
                 dateOfBirth: Date, membershipStartDate: Date)
      ensures Info() == MemberInfo(id, name, phoneNumber, email, gender, dateOfBirth, membershipStartDate, 0, 0, false)
    {
      this.id := id;
      this.name := name;
      this.phoneNumber := phoneNumber;
      this.email := email;
      this.gender := gender;
      this.dateOfBirth := dateOfBirth;
      this.membershipStartDate := membershipStartDate;
      this.attendanceCount := 0;
      this.loyaltyPoints := 0;
      this.activeStatus := false;
    }

    /** Always leaves the member active and changes nothing else, so a second call changes nothing. */
    method ActivateMembership()
      modifies this
      ensures activeStatus
      ensures Info() == old(Info()).(activeStatus := true)
    {
      activeStatus := true;
    }

    /** Always leaves the member inactive; on an inactive member it changes nothing at all. */
    method DeactivateMembership()
      modifies this
      ensures !activeStatus
      ensures Info() == old(Info()).(activeStatus := false)
      ensures !old(activeStatus) ==> Info() == old(Info())
    {
      if activeStatus {
        activeStatus := false;
      }
    }

    method ResetMember()
      modifies this
      ensures Info() == Reset(old(Info()))
    {
      attendanceCount := 0;
      loyaltyPoints := 0;
      activeStatus := false;
    }

    // The setters, used when members are loaded from a file: each changes its own field only.

    method SetId(id: string)
      modifies this
      ensures Info() == old(Info()).(id := id)
    {
      this.id := id;
    }

    method SetName(name: string)
      modifies this
      ensures Info() == old(Info()).(name := name)
    {
      this.name := name;
    }

    method SetPhoneNumber(phoneNumber: string)
      modifies this
      ensures Info() == old(Info()).(phoneNumber := phoneNumber)
    {
      this.phoneNumber := phoneNumber;
    }

    method SetEmail(email: string)
      modifies this
      ensures Info() == old(Info()).(email := email)
    {
      this.email := email;
    }

    method SetGender(gender: string)
      modifies this
      ensures Info() == old(Info()).(gender := gender)
    {
      this.gender := gender;
    }

    method SetDateOfBirth(dateOfBirth: Date)
      modifies this
      ensures Info() == old(Info()).(dateOfBirth := dateOfBirth)
    {
      this.dateOfBirth := dateOfBirth;
    }

    method SetMembershipStartDate(membershipStartDate: Date)
      modifies this
      ensures Info() == old(Info()).(membershipStartDate := membershipStartDate)
    {
      this.membershipStartDate := membershipStartDate;
    }

    method SetAttendanceCount(attendanceCount: int)
      modifies this
      ensures Info() == old(Info()).(attendanceCount := attendanceCount)
    {
      this.attendanceCount := attendanceCount;
    }

    method SetLoyaltyPoints(loyaltyPoints: int)
      modifies this
      ensures Info() == old(Info()).(loyaltyPoints := loyaltyPoints)
    {
      this.loyaltyPoints := loyaltyPoints;
    }

    method SetActiveStatus(activeStatus: bool)
      modifies this
      ensures Info() == old(Info()).(activeStatus := activeStatus)
    {
      this.activeStatus := activeStatus;
    }
  }
}
