# Gym membership model

A Dafny model of a gym membership system's domain classes and of the roster logic its Swing
front end keeps.

- **`GymMember`** is the common part of every member:
  - identity, contact details, date of birth and membership start;
  - an attendance counter, loyalty points and an active flag;
  - activate, deactivate, reset, and the plain setters.
- **`RegularMember`** adds:
  - a plan priced from a fixed table (Basic 6500, Standard 12500, Deluxe 18500). An unknown plan becomes Basic.
  - 5 loyalty points per visit, and a sticky upgrade-eligibility flag earned at 30 visits;
  - upgrades only up the tiers, compared case-insensitively;
  - a revert that records a reason.
- **`PremiumMember`** adds:
  - a personal trainer and 10 points per visit;
  - instalment payments towards a 50000 charge. Non-positive payments and payments after completion are rejected; overpayment is clamped to the balance.
  - a 10% discount once the charge is paid;
  - a full revert.
- **The roster** is the GUI's member list:
  - lookup by id;
  - validation of the registration form;
  - the stored email address (trimmed, lower-cased input plus `@gmail.com`);
  - the price shown for the selected plan;
  - adding a regular or premium member after the duplicate-id check;
  - loading members from the comma-separated lines that `toFileString` writes.

## How the model is built

**Member classes.** The three member classes are Dafny classes with the source's fields. Java
inheritance becomes composition: `RegularMember` and `PremiumMember` each hold their own
`GymMember` object in `member`. Each class has an `Info()` snapshot of its state as a datatype.
Every method that changes state ensures that the new snapshot is a pure transition of the old one
(`Info() == Attended(old(Info()))`). The source's promises are proved as lemmas about those
transitions:

- attendance counts and eligibility after `n` visits;
- the bound and completion rule of the payment accumulator;
- the discount invariant;
- the price-matches-plan invariant.

**Roster.** `GymRoster.Roster` holds the members as a `seq` that its methods reassign:

- `FindMemberById` is the source's linear search, as a loop.
- `ReadFromFile` is the source's line loop. It is proved to build exactly the members that the pure
  importer `MemberFile.Imported` yields, and the properties of the importer are lemmas.

**Java library behaviour.** Module `Text` models the Java library calls the code depends on:

- `trim`, `toLowerCase`, and `split(",")` (trailing empty fields are dropped);
- `Integer.parseInt` and `Long.parseLong` over ASCII digits, and `Boolean.parseBoolean`;
- `Double.parseDouble` and `toString` on whole amounts.

Module `Dates` models `LocalDate` and the `yyyy-MM-dd` pattern.

**Loading a file.**

- A failed load keeps the members read before the bad line: the list is cleared before the loop
  (GymGUI.java:1859) and members are appended as they are read, so a date or number that does not
  parse ends the load with the earlier members in place (`MemberFile.MalformedLineStopsImport`,
  `MemberFile.ImportedAfterFailure`, `GymRoster.Roster.ReadFromFile`).
- The loader does not check for repeated ids (`MemberFile.ImportKeepsRepeatedIds`), so distinct
  ids are kept only by the add path.

## Model

| member | source | states |
|---|---|---|
| Members.GymMember.constructor | GymMember.java:45-57 | A new member has the given identity, contact details and dates, attendance 0, loyalty 0 and is inactive |
| Members.GymMember.ActivateMembership | GymMember.java:76-79 | The member is active afterwards and nothing else changes, so a second call changes nothing |
| Members.GymMember.DeactivateMembership | GymMember.java:82-89 | The member is inactive afterwards; nothing else changes; on an already inactive member no field changes |
| Members.Reset | GymMember.java:92-97 | Reset zeroes attendance and loyalty and clears the active flag, keeping every other field |
| Members.GymMember.ResetMember | GymMember.java:92-97 | The new state is `Reset` of the old one |
| Members.GymMember.SetId | GymMember.java:160-162 | Only the id changes |
| Members.GymMember.SetName | GymMember.java:165-167 | Only the name changes |
| Members.GymMember.SetPhoneNumber | GymMember.java:170-172 | Only the phone number changes |
| Members.GymMember.SetEmail | GymMember.java:175-177 | Only the email changes |
| Members.GymMember.SetGender | GymMember.java:179-181 | Only the gender changes |
| Members.GymMember.SetDateOfBirth | GymMember.java:183-185 | Only the date of birth changes |
| Members.GymMember.SetMembershipStartDate | GymMember.java:188-190 | Only the start date changes |
| Members.GymMember.SetAttendanceCount | GymMember.java:192-194 | Only the attendance count changes |
| Members.GymMember.SetLoyaltyPoints | GymMember.java:197-199 | Only the loyalty points change |
| Members.GymMember.SetActiveStatus | GymMember.java:208-210 | Only the active flag changes |
| Regular.BasicLabelPrice | RegularMember.java:32-34 | "Basic" lower-cases to a known plan priced 6500 |
| Regular.StandardLabelPrice | RegularMember.java:36-38 | "Standard" is priced 12500 |
| Regular.DeluxeLabelPrice | RegularMember.java:39-41 | "Deluxe" is priced 18500 |
| Regular.NormalizedPlan | RegularMember.java:31-47 | The plan left after pricing is always a known plan; it is the given name when that is known (in any letter case), otherwise "Basic"; it has the same price as the given name |
| Regular.UpgradeIsTierIncrease | RegularMember.java:69-75 | From a known plan, an upgrade is accepted exactly when the new plan is known and of a strictly higher tier (Basic < Standard < Deluxe) |
| Regular.UpgradeRaisesPrice | RegularMember.java:74-78 | Every accepted upgrade moves to a strictly higher price |
| Regular.PlanPriceIsWhole | RegularMember.java:12-14 | Every plan price is a whole amount, so it is written as "<digits>.0" |
| Regular.NewRegularInfo | RegularMember.java:17-28 | A new regular member keeps the given common part and referral, has the normalised plan with a price that matches it (the price of the given plan name), is not eligible, and has an empty removal reason |
| Regular.AttendedKeepsEligibilityAndPlan | RegularMember.java:51-66 | Attendance never clears eligibility, changes nothing but the counters and the flag, and changes nothing at all for an inactive member |
| Regular.AttendedTimesCounts | RegularMember.java:52-60 | `n` visits of an active member add `n` to attendance and `5n` to loyalty; the member is eligible afterwards exactly when already eligible or when attendance reached 30 |
| Regular.FreshMemberAttendance | RegularMember.java:52-60 | From a fresh active member: loyalty is 5 × attendance, and the member is eligible after `n` visits exactly when `n >= 30` (not after 29, yes after 30) |
| Regular.Reverted | RegularMember.java:88-92 | Revert records the reason and resets the common part; plan, price, referral and eligibility are unchanged |
| Regular.TransitionsKeepPriceMatchingPlan | RegularMember.java:31-47 | Attendance, revert, an accepted upgrade and a plan change all keep the price equal to the plan's price |
| Regular.FileFields | RegularMember.java:147-152 | The written line has 16 fields: "REGULAR" first, the plan at 11, the referral at 13, the removal reason at 15 |
| Regular.RegularMember.constructor | RegularMember.java:17-28 | The new member's state is `NewRegularInfo` of a fresh common part, and the price-matches-plan invariant holds |
| Regular.RegularMember.SetPriceBasedOnPlan | RegularMember.java:31-47 | The price is the table price of the plan; an unknown plan becomes "Basic"; nothing else changes; the invariant holds afterwards |
| Regular.RegularMember.MarkAttendance | RegularMember.java:51-66 | The new state is `Attended` of the old one |
| Regular.RegularMember.UpgradePlan | RegularMember.java:69-85 | The result is true exactly on a tier increase, whatever the eligibility or active flag; on success the plan is the given name and the price is recomputed; on failure nothing changes |
| Regular.RegularMember.RevertRegularMember | RegularMember.java:88-92 | The new state is `Reverted` of the old one with the given reason |
| Regular.RegularMember.SetMembershipPlan | RegularMember.java:129-132 | The plan is set, then normalised and priced; the invariant holds afterwards |
| Regular.RegularMember.SetReferralSource | RegularMember.java:134-136 | Only the referral source changes |
| Regular.RegularMember.SetEligibleForUpgrade | RegularMember.java:138-140 | Only the eligibility flag changes |
| Regular.RegularMember.SetRemovalReason | RegularMember.java:142-144 | Only the removal reason changes |
| Premium.NewPremiumInfo | PremiumMember.java:13-21 | A new premium member keeps the given common part and trainer, has nothing paid, payment incomplete and no discount, so all three premium invariants hold |
| Premium.Attended | PremiumMember.java:25-33 | An active member gains one visit and 10 points; an inactive member is unchanged; nothing else changes |
| Premium.PaidSpec | PremiumMember.java:36-65 | A non-positive payment or one after completion changes nothing; an accepted payment adds min(amount, 50000 − paid), changes only the amount and the flag, and leaves the payment complete exactly when 50000 is covered |
| Premium.PaidKeepsWithinCharge | PremiumMember.java:47-54 | A member who has paid no more than 50000 still has not after any payment |
| Premium.PaidAllFromNew | PremiumMember.java:36-65 | After any sequence of payments from a consistent start, the paid total stays within [0, 50000] and never decreases, the payment is complete exactly when it reaches 50000, and the discount is unchanged |
| Premium.OverpaymentIsClamped | PremiumMember.java:47-59 | Paying 60000 on a new member pays exactly 50000 and completes the payment |
| Premium.ThreeInstalments | PremiumMember.java:47-59 | Three payments of 20000 reach exactly 50000 (the third is cut to 10000); after two, 40000 is paid and the payment is incomplete |
| Premium.DiscountSpec | PremiumMember.java:68-77 | The discount is 5000 after full payment and 0 before; the stored discount becomes 5000 or stays as it was; nothing else changes; a second call changes nothing |
| Premium.Reverted | PremiumMember.java:80-86 | Revert resets the common part and clears completion, paid amount and discount; the trainer is kept |
| Premium.WithPaidAmount | PremiumMember.java:133-138 | The paid amount is set; the payment becomes complete when the amount reaches 50000 and is never made incomplete; nothing else changes |
| Premium.TransitionsKeepDiscountInvariant | PremiumMember.java:67-86 | Attendance, payment, discount, revert and `setPaidAmount` all keep "a discount only when paid in full" |
| Premium.TransitionsKeepCoveredIsComplete | PremiumMember.java:47-59 | The same operations keep "paid in full means complete" |
| Premium.FileFields | PremiumMember.java:145-150 | The written line has 15 fields: "PREMIUM" first and the trainer at 11 |
| Premium.PremiumMember.constructor | PremiumMember.java:13-21 | The new member's state is `NewPremiumInfo` of a fresh common part |
| Premium.PremiumMember.MarkAttendance | PremiumMember.java:25-33 | The new state is `Attended` of the old one |
| Premium.PremiumMember.PayDueAmount | PremiumMember.java:36-65 | The result is true exactly when the payment is positive and the charge is not yet paid; the new state is `Paid` of the old one |
| Premium.PremiumMember.CalculateDiscount | PremiumMember.java:68-77 | Returns the discount due (5000 or 0); the new state is `Discounted` of the old one |
| Premium.PremiumMember.RevertPremiumMember | PremiumMember.java:80-86 | The new state is `Reverted` of the old one |
| Premium.PremiumMember.SetPersonalTrainer | PremiumMember.java:125-127 | Only the trainer changes |
| Premium.PremiumMember.SetPaymentComplete | PremiumMember.java:129-131 | Only the completion flag changes |
| Premium.PremiumMember.SetPaidAmount | PremiumMember.java:133-138 | The new state is `WithPaidAmount` of the old one |
| Premium.PremiumMember.SetDiscountAmount | PremiumMember.java:140-142 | Only the discount changes |
| Text.Trim | GymGUI.java:1211 | `trim` gives one contiguous slice of the text: every character cut before or after it is at or below a space, its own first and last characters are above a space, and it is empty exactly when the text is all such characters |
| Text.TrimIsSlice | GymGUI.java:1211 | Cutting blanks from the front and then from the back leaves a slice of the original text with only blanks cut on either side |
| Text.ToLower | GymGUI.java:1291 | `toLowerCase` keeps the length and lower-cases each character in place |
| Text.ToLowerKeepsAbsence | GymGUI.java:1244 | Lower-casing neither adds nor removes an '@' |
| Text.Split | GymGUI.java:1865 | `split(",")` gives fields without commas; the last field is non-empty unless the line is empty |
| Text.SplitOfJoin | GymGUI.java:1865 | Splitting fields joined by commas gives them back, less trailing empty fields, when no field holds a comma |
| Text.ParseInteger | GymGUI.java:1215-1219 | A parse succeeds only on digits with an optional sign that is not alone, and the value is the signed value of the digits, inside the type's range; conversely every such numeral in range is read as its value |
| Text.ParseFormatInt | GymGUI.java:1878-1879 | Every `int` written as text parses back as itself |
| Text.ParseFormatBool | GymGUI.java:1880 | Every flag written as text parses back as itself |
| Text.ParseFormatAmount | GymGUI.java:1911-1912 | Every whole amount written as text parses back as itself |
| Dates.ParseDate | GymGUI.java:1876-1877 | A date that parses was written as ten characters with '-' at 4 and 7 |
| Dates.ParseFormatDate | GymGUI.java:1876-1877 | Every date written in `yyyy-MM-dd` parses back as itself |
| Dates.ParseDateClampsDay | GymGUI.java:1876-1877 | Day 29, 30 or 31 past the end of its month parses as the last day of that month |
| MemberFile.ParseCommon | GymGUI.java:1871-1880 | The shared fields fail to parse exactly when a date or a counter does not parse; otherwise fields 1 to 5 are taken as written and the dates, counters and flag are their parsed values |
| MemberFile.ParseParts | GymGUI.java:1865-1924 | A line is skipped exactly when it has fewer than 15 fields or neither tag; it is malformed exactly when a tagged line of 15 fields has a shared field, or for a premium row an amount, that does not parse; a row's member is the parsed shared fields and its id is field 1; a regular row takes the plan from field 11, the referral from 13, the upgrade flag from 14 and the removal reason from 15 when present; a premium row takes the trainer from 11, the completion flag from 12 and the paid and discount amounts from the parsed fields 13 and 14 |
| MemberFile.RowState | GymGUI.java:1885-1922 | A regular row keeps the member, the referral, the upgrade flag and the removal reason (empty when absent), normalises the plan and recomputes the price from it; a premium row keeps the member, the trainer, the paid and the discount amounts, and its payment is complete when the line says so or when the paid amount reaches 50000, because completion is set before the amount |
| MemberFile.ImportRowsCount | GymGUI.java:1864-1926 | A load that reads every line gives one member per member line, so the count reported is the number appended; a stopped load keeps at most that many |
| MemberFile.ImportedStep | GymGUI.java:1864-1926 | Reading one more line is one more step of the loop |
| MemberFile.MalformedLineStopsImport | GymGUI.java:1876-1879 | A line whose date or number does not parse ends the load there: the load is reported failed and the lines after it change nothing |
| MemberFile.ImportedAfterFailure | GymGUI.java:1935 | After a line whose date or number does not parse, no later line has any effect |
| MemberFile.ImportedIgnoresSkipped | GymGUI.java:1867-1870 | A skipped line has no effect on the result, wherever it stands |
| MemberFile.ImportKeepsRepeatedIds | GymGUI.java:1895 | The same member line twice gives two members with one id |
| MemberFile.RegularLineReadsBack | GymGUI.java:1870-1895 | A regular member written by `toFileString` reads back as the same member |
| MemberFile.PremiumLineReadsBack | GymGUI.java:1898-1923 | A premium member written by `toFileString` reads back as the same member |
| GymRoster.IndexOf | GymGUI.java:1121-1128 | The position of the first occurrence of an id, or none exactly when it is absent |
| GymRoster.IdErrors | GymGUI.java:1211-1220 | The id check reports at most one problem, and none exactly when the id parses as an `int` |
| GymRoster.PhoneErrors | GymGUI.java:1230-1239 | The phone check reports at most one problem, and none exactly when the phone parses as a `long` |
| GymRoster.EmailErrors | GymGUI.java:1241-1246 | The email check reports at most one problem, and none exactly when the email is non-empty and holds no '@' |
| GymRoster.RequiredErrors | GymGUI.java:1222-1228 | A required field reports a problem exactly when it is empty |
| GymRoster.ValidationErrors | GymGUI.java:1208-1267 | At most six problems are listed, at most one per field |
| GymRoster.ValidationAcceptsExactly | GymGUI.java:1208-1267 | The form is accepted exactly when the id parses as an `int`, name and location are filled, the phone parses as a `long`, the email is filled without '@', and the referral (regular) or trainer (premium) is filled, all after trimming |
| GymRoster.StoredEmail | GymGUI.java:1291-1292 | The stored address ends in "@gmail.com" |
| GymRoster.AcceptedEmailHasOneAt | GymGUI.java:1291-1292 | For an accepted form, the stored address holds exactly one '@', the one before "gmail.com" |
| GymRoster.PriceFieldShowsPlanPrice | GymGUI.java:974-987 | For each plan in the form, the price text shown is a digit string whose value is that plan's price |
| GymRoster.RegisteredInfo | GymGUI.java:1281-1302 | A registered member has the trimmed id, name and phone, the stored email, gender "Male" or "Female" as selected, the given birth and start dates, no attendance, no points and is inactive |
| GymRoster.AddOutcomeCases | GymGUI.java:1275-1303 | Adding is rejected exactly when validation fails, with its errors; otherwise it is a duplicate exactly when the trimmed id is present; otherwise the dates fail exactly when a picked day does not exist; otherwise it is added |
| GymRoster.AppendNewIdKeepsUnique | GymGUI.java:1283-1303 | Appending an id not yet present keeps the ids distinct |
| GymRoster.Roster.FindMemberById | GymGUI.java:1121-1128 | Finds nothing exactly when no member has the id; otherwise returns the first member with it |
| GymRoster.Roster.CheckRegistration | GymGUI.java:1277-1297 | The checks made before adding give `AddOutcomeFor` the current ids |
| GymRoster.Roster.AddRegularMember | GymGUI.java:1275-1319 | The list is unchanged unless the member is added; otherwise exactly one new regular member, built by the constructor from the form, is appended at the end and the earlier members keep their order; distinct ids stay distinct |
| GymRoster.Roster.AddPremiumMember | GymGUI.java:1327-1370 | The same for a premium member with the trimmed trainer name |
| GymRoster.Roster.ReadFromFile | GymGUI.java:1849-1939 | The roster is cleared, then holds exactly the members the importer yields; the count is reported when every line was read, and a failure otherwise |

## Left out

- **Swing and file I/O.** Panels, dialogs, the file chooser and the reader are not modelled, nor
  are the `display` methods and the console messages. The loader takes the file's lines as a
  `seq<string>`. The registration form is a datatype of its text fields, with the gender button
  and the picked dates as parameters. `saveToFile` writes a report that the loader does not read
  back, and is not part of this model.
- **Money.** Amounts are exact `real`s, not IEEE doubles. `Double.toString` is modelled only for
  whole amounts below ten million, which print as "<digits>.0". Every constant in the source is
  such an amount. `Double.parseDouble` is modelled on plain decimal text only, with no exponents,
  no "NaN", no "Infinity" and no hexadecimal.
- **Counters.** The attendance and loyalty counters are unbounded integers. Java `int` wrap-around
  after 2^31 visits is not modelled.
- **Case folding.** It covers ASCII letters only.
- **Dates.** They are limited to the years 1 to 9999.
- **Strings.** A plan name, trainer or other text is a `string` without Unicode normalisation.
- MemberFile.RegularLineReadsBack: holds only for members whose text fields contain no comma and whose counters fit an `int`, since the format has no quoting; an empty removal reason is dropped by the split and comes back empty.
- MemberFile.PremiumLineReadsBack: also requires that a paid amount of at least 50000 goes with a completed payment, because the loader completes such a payment whatever the line says.
- GymRoster.PriceFieldShowsPlanPrice: states that the shown text spells the plan price in digits, not that any later code parses it, since the price field is display only.
- Text.ParseInteger: only ASCII digits '0'-'9' are modelled; Java's `Character.digit` also accepts other Unicode decimal digits, so an id, phone or counter written in, for example, Arabic-Indic digits is rejected by the model but accepted by the source.
- Premium.TransitionsKeepDiscountInvariant: does not cover `setDiscountAmount` and `setPaymentComplete(false)`, which can break the invariant in the source too.
