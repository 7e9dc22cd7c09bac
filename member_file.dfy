/**
 * The comma-separated member line that `toFileString` writes and the importer of GymGUI.java
 * reads back, one member per line:
 *   REGULAR,id,name,phone,email,gender,dob,start,attendance,loyalty,active,plan,price,referral,eligible[,reason]
 *   PREMIUM,id,name,phone,email,gender,dob,start,attendance,loyalty,active,trainer,complete,paid,discount
 * and what importing a whole sequence of lines yields.
 */
module MemberFile {
  import opened Wrappers
  import opened Text
  import opened Dates
  import opened Members
  import Regular
  import Premium

  /** The state of one member of either kind. */
  datatype MemberState =
    | RegularState(regular: Regular.RegularInfo)
    | PremiumState(premium: Premium.PremiumInfo)
  {
    function Id(): string
    {
      match this
      case RegularState(r) => r.member.id
      case PremiumState(p) => p.member.id
    }
  }

  /** What one line holds for the importer. */
  datatype LineParse =
    | Skipped     // neither tag, or fewer than 15 fields: the line is ignored
    | Malformed   // a date or a number that does not parse: the import stops here
    | RegularRow(member: MemberInfo, plan: string, referral: string, eligible: bool, removalReason: Option<string>)
    | PremiumRow(member: MemberInfo, trainer: string, paymentComplete: bool, paidAmount: real, discountAmount: real)
  {
    predicate IsRow()
    {
      RegularRow? || PremiumRow?
    }
  }

  /** Fields 1 to 10, common to both kinds: two dates and two counters that must parse, and the active flag. */
  function ParseCommon(parts: seq<string>): (r: Option<MemberInfo>)
    requires |parts| >= 11
    ensures r.None? <==> ParseDate(parts[6]).None? || ParseDate(parts[7]).None?
                         || ParseInt(parts[8]).None? || ParseInt(parts[9]).None?
    ensures r.Some? ==> r.value.id == parts[1] && r.value.name == parts[2] && r.value.phoneNumber == parts[3]
                        && r.value.email == parts[4] && r.value.gender == parts[5]
                        && Some(r.value.dateOfBirth) == ParseDate(parts[6])
                        && Some(r.value.membershipStartDate) == ParseDate(parts[7])
                        && Some(r.value.attendanceCount) == ParseInt(parts[8])
                        && Some(r.value.loyaltyPoints) == ParseInt(parts[9])
                        && r.value.activeStatus == ParseBoolean(parts[10])
  {
    var dob, start := ParseDate(parts[6]), ParseDate(parts[7]);
    var attendance, loyalty := ParseInt(parts[8]), ParseInt(parts[9]);
    if dob.None? || start.None? || attendance.None? || loyalty.None? then None
    else Some(MemberInfo(parts[1], parts[2], parts[3], parts[4], parts[5], dob.value, start.value,
                         attendance.value, loyalty.value, ParseBoolean(parts[10])))
  }

  /**
   * The importer's reading of a split line: the tag in field 0 chooses the kind, and a line of
   * either kind needs at least 15 fields. A regular line takes its plan from field 11, its referral
   * from 13, its eligibility from 14 and a removal reason from 15 if there is one; the price in
   * field 12 is not read. A premium line takes trainer, completion, paid amount and discount from
   * fields 11 to 14.
   */
  function ParseParts(parts: seq<string>): (r: LineParse)
    ensures r.Skipped? <==> !(|parts| >= 15 && (parts[0] == "REGULAR" || parts[0] == "PREMIUM"))
    ensures r.RegularRow? ==> parts[0] == "REGULAR" && r.plan == parts[11] && r.referral == parts[13]
    ensures r.PremiumRow? ==> parts[0] == "PREMIUM" && r.trainer == parts[11]
    ensures r.IsRow() ==> r.member.id == parts[1]
    ensures r.IsRow() ==> |parts| >= 15 && ParseCommon(parts) == Some(r.member)
    ensures r.RegularRow? ==>
              |parts| >= 15 && r.eligible == ParseBoolean(parts[14])
              && r.removalReason == (if |parts| > 15 then Some(parts[15]) else None)
    ensures r.PremiumRow? ==>
              |parts| >= 15 && r.paymentComplete == ParseBoolean(parts[12])
              && ParseDecimal(parts[13]) == Some(r.paidAmount) && ParseDecimal(parts[14]) == Some(r.discountAmount)
    ensures r.Malformed? <==>
              |parts| >= 15
              && ((parts[0] == "REGULAR" && ParseCommon(parts).None?)
                  || (parts[0] == "PREMIUM"
                      && (ParseCommon(parts).None? || ParseDecimal(parts[13]).None? || ParseDecimal(parts[14]).None?)))
  {
    if |parts| > 0 && parts[0] == "REGULAR" && |parts| >= 15 then
      match ParseCommon(parts)
      case None => Malformed
      case Some(m) =>
        RegularRow(m, parts[11], parts[13], ParseBoolean(parts[14]), if |parts| > 15 then Some(parts[15]) else None)
    else if |parts| > 0 && parts[0] == "PREMIUM" && |parts| >= 15 then
      var common, paid, discount := ParseCommon(parts), ParseDecimal(parts[13]), ParseDecimal(parts[14]);
      if common.None? || paid.None? || discount.None? then Malformed
      else PremiumRow(common.value, parts[11], ParseBoolean(parts[12]), paid.value, discount.value)
    else Skipped
  }

  function ParseLine(line: string): LineParse
  {
    ParseParts(Split(line, ','))
  }

  /**
   * The member a row becomes: the constructor's state with the row's counters and flags set on it.
   * A regular member's price is recomputed from the plan; a premium member's payment is complete
   * when the line says so or when the paid amount covers the charge.
   */
  function RowState(row: LineParse): (s: MemberState)
    requires row.IsRow()
    ensures row.RegularRow? ==>
              s.RegularState? && s.regular.PriceMatchesPlan()
              && s.regular.price == Regular.PlanPrice(row.plan) && s.regular.member == row.member
              && s.regular.membershipPlan == Regular.NormalizedPlan(row.plan)
              && s.regular.referralSource == row.referral && s.regular.eligibleForUpgrade == row.eligible
              && s.regular.removalReason == (if row.removalReason.Some? then row.removalReason.value else "")
    ensures row.PremiumRow? ==>
              s.PremiumState? && s.premium.member == row.member && s.premium.personalTrainer == row.trainer
              && s.premium.paidAmount == row.paidAmount
              && (s.premium.paymentComplete <==> row.paymentComplete || row.paidAmount >= Premium.PREMIUM_CHARGE)
              && s.premium.discountAmount == row.discountAmount
  {
    match row
    case RegularRow(m, plan, referral, eligible, reason) =>
      RegularState(Regular.NewRegularInfo(m, plan, referral).(
        eligibleForUpgrade := eligible,
        removalReason := if reason.Some? then reason.value else ""))
    case PremiumRow(m, trainer, complete, paid, discount) =>
      PremiumState(Premium.WithPaidAmount(Premium.NewPremiumInfo(m, trainer).(paymentComplete := complete), paid).(
        discountAmount := discount))
  }

  // ---------------------------------------------------------------------------------------------
  // Importing a sequence of lines

  /** The members read so far, and whether every line so far could be read. */
  datatype ImportResult = ImportResult(states: seq<MemberState>, completed: bool)

  /** One line's effect: skip it, stop for good, or append one member. */
  function Step(before: ImportResult, row: LineParse): (after: ImportResult)
    ensures !before.completed ==> after == before
  {
    if !before.completed || row.Skipped? then before
    else if row.Malformed? then ImportResult(before.states, false)
    else ImportResult(before.states + [RowState(row)], true)
  }

  /** The importer over the lines' readings, in file order. */
  function ImportRows(rows: seq<LineParse>): ImportResult
    decreases |rows|
  {
    if rows == [] then ImportResult([], true)
    else Step(ImportRows(rows[..|rows| - 1]), rows[|rows| - 1])
  }

  lemma TakeOneMore<T>(s: seq<T>, i: nat)
    requires i < |s|
    ensures s[..i + 1] == s[..i] + [s[i]]
  {
  }

  lemma TakeAndDrop<T>(s: seq<T>, i: nat)
    requires i <= |s|
    ensures s[..i] + s[i..] == s
  {
  }

  /** `f` applied to each element. */
  function MapSeq<A, B>(f: A -> B, xs: seq<A>): (ys: seq<B>)
    ensures |ys| == |xs|
    decreases |xs|
  {
    if xs == [] then [] else MapSeq(f, xs[..|xs| - 1]) + [f(xs[|xs| - 1])]
  }

  lemma {:induction false} MapSeqAt<A, B>(f: A -> B, xs: seq<A>, i: nat)
    requires i < |xs|
    ensures MapSeq(f, xs)[i] == f(xs[i])
    decreases |xs|
  {
    if i < |xs| - 1 {
      MapSeqAt(f, xs[..|xs| - 1], i);
    }
  }

  lemma {:induction false} MapSeqAppend<A, B>(f: A -> B, xs: seq<A>, ys: seq<A>)
    ensures MapSeq(f, xs + ys) == MapSeq(f, xs) + MapSeq(f, ys)
    decreases |ys|
  {
    if ys == [] {
      assert xs + ys == xs;
    } else {
      var init, last := ys[..|ys| - 1], ys[|ys| - 1];
      MapSeqAppend(f, xs, init);
      assert (xs + ys)[..|xs + ys| - 1] == xs + init;
    }
  }

  lemma MapSeqPrefix<A, B>(f: A -> B, xs: seq<A>, n: nat)
    requires n <= |xs|
    ensures MapSeq(f, xs[..n]) == MapSeq(f, xs)[..n]
  {
    MapSeqAppend(f, xs[..n], xs[n..]);
    TakeAndDrop(xs, n);
  }

  lemma MapSeqPair<A, B>(f: A -> B, x: A, y: A)
    ensures MapSeq(f, [x, y]) == [f(x), f(y)]
  {
    MapSeqAt(f, [x, y], 0);
    MapSeqAt(f, [x, y], 1);
  }

  function ParsedLines(lines: seq<string>): (rows: seq<LineParse>)
  {
    MapSeq(ParseLine, lines)
  }

  /** What importing the lines of a file yields. */
  function Imported(lines: seq<string>): ImportResult
  {
    ImportRows(ParsedLines(lines))
  }

  lemma ImportRowsStep(rows: seq<LineParse>, row: LineParse)
    ensures ImportRows(rows + [row]) == Step(ImportRows(rows), row)
  {
    assert (rows + [row])[..|rows|] == rows;
  }

  /** Importing one more line is one more step. */
  lemma ImportedStep(lines: seq<string>, line: string)
    ensures Imported(lines + [line]) == Step(Imported(lines), ParseLine(line))
  {
    ParsedLinesAppend(lines, [line]);
    MapSeqAt(ParseLine, [line], 0);
    ImportRowsStep(ParsedLines(lines), ParseLine(line));
  }

  /** After a line that does not parse, nothing further is read: later lines change nothing. */
  lemma {:induction false} ImportRowsAfterFailure(rows: seq<LineParse>, rest: seq<LineParse>)
    requires !ImportRows(rows).completed
    ensures ImportRows(rows + rest) == ImportRows(rows)
    decreases |rest|
  {
    if rest == [] {
      assert rows + rest == rows;
    } else {
      var init, last := rest[..|rest| - 1], rest[|rest| - 1];
      ImportRowsAfterFailure(rows, init);
      assert rows + rest == (rows + init) + [last];
      ImportRowsStep(rows + init, last);
    }
  }

  lemma ImportedAfterFailure(lines: seq<string>, rest: seq<string>)
    requires !Imported(lines).completed
    ensures Imported(lines + rest) == Imported(lines)
  {
    ParsedLinesAppend(lines, rest);
    ImportRowsAfterFailure(ParsedLines(lines), ParsedLines(rest));
  }

  /** A skipped line has no effect on what is imported, wherever it stands. */
  lemma {:induction false} ImportRowsIgnoresSkipped(rows: seq<LineParse>, rest: seq<LineParse>)
    ensures ImportRows(rows + [Skipped] + rest) == ImportRows(rows + rest)
    decreases |rest|
  {
    var withSkipped := rows + [Skipped];
    if rest == [] {
      assert withSkipped + rest == withSkipped;
      assert rows + rest == rows;
      ImportRowsStep(rows, Skipped);
    } else {
      var init, last := rest[..|rest| - 1], rest[|rest| - 1];
      assert rest == init + [last];
      assert withSkipped + rest == (withSkipped + init) + [last];
      assert rows + rest == (rows + init) + [last];
      calc {
        ImportRows(withSkipped + rest);
        { ImportRowsStep(withSkipped + init, last); }
        Step(ImportRows(withSkipped + init), last);
        { ImportRowsIgnoresSkipped(rows, init); }
        Step(ImportRows(rows + init), last);
        { ImportRowsStep(rows + init, last); }
        ImportRows(rows + rest);
      }
    }
  }

  lemma ParsedLinesAppend(lines: seq<string>, rest: seq<string>)
    ensures ParsedLines(lines + rest) == ParsedLines(lines) + ParsedLines(rest)
  {
    MapSeqAppend(ParseLine, lines, rest);
  }

  lemma ImportedIgnoresSkipped(lines: seq<string>, skipped: string, rest: seq<string>)
    requires ParseLine(skipped).Skipped?
    ensures Imported(lines + [skipped] + rest) == Imported(lines + rest)
  {
    ParsedLinesAppend(lines + [skipped], rest);
    ParsedLinesAppend(lines, [skipped]);
    ParsedLinesAppend(lines, rest);
    MapSeqAt(ParseLine, [skipped], 0);
    ImportRowsIgnoresSkipped(ParsedLines(lines), ParsedLines(rest));
  }

  /** The number of readings that hold a member. */
  function RowCount(rows: seq<LineParse>): nat
    decreases |rows|
  {
    if rows == [] then 0
    else RowCount(rows[..|rows| - 1]) + (if rows[|rows| - 1].IsRow() then 1 else 0)
  }

  /**
   * A load that reads every line yields one member per member line, in file order: the count
   * reported is the number of member lines; a load that stops keeps the members read before it.
   */
  lemma {:induction false} ImportRowsCount(rows: seq<LineParse>)
    ensures ImportRows(rows).completed ==> |ImportRows(rows).states| == RowCount(rows)
    ensures |ImportRows(rows).states| <= RowCount(rows)
    decreases |rows|
  {
    if rows != [] {
      ImportRowsCount(rows[..|rows| - 1]);
    }
  }

  /**
   * A tagged line whose date, count or (premium) amount does not parse ends the load there:
   * the import is not completed, and the lines after it have no effect.
   */
  lemma MalformedLineStopsImport(lines: seq<string>, i: nat)
    requires i < |lines| && ParseLine(lines[i]).Malformed?
    ensures !Imported(lines[..i + 1]).completed
    ensures Imported(lines) == Imported(lines[..i + 1])
  {
    MapSeqAt(ParseLine, lines, i);
    MapSeqPrefix(ParseLine, lines, i + 1);
    MalformedRowStopsImport(ParsedLines(lines), i);
  }

  /** The same over the lines' readings. */
  lemma MalformedRowStopsImport(rows: seq<LineParse>, i: nat)
    requires i < |rows| && rows[i].Malformed?
    ensures !ImportRows(rows[..i + 1]).completed
    ensures ImportRows(rows) == ImportRows(rows[..i + 1])
  {
    TakeOneMore(rows, i);
    ImportRowsStep(rows[..i], rows[i]);
    ImportRowsAfterFailure(rows[..i + 1], rows[i + 1..]);
    TakeAndDrop(rows, i + 1);
  }

  /** The importer does not look for repeated ids: the same member row twice gives two members. */
  lemma ImportRowsKeepsRepeats(row: LineParse)
    requires row.IsRow()
    ensures ImportRows([row, row]) == ImportResult([RowState(row), RowState(row)], true)
  {
    ImportRowsStep([], row);
    assert [] + [row] == [row];
    ImportRowsStep([row], row);
    assert [row] + [row] == [row, row];
  }

  /** The same member line twice in a file gives two members with one id. */
  lemma ImportKeepsRepeatedIds(line: string)
    requires ParseLine(line).IsRow()
    ensures |Imported([line, line]).states| == 2
    ensures Imported([line, line]).states[0].Id() == Imported([line, line]).states[1].Id()
  {
    MapSeqPair(ParseLine, line, line);
    ImportRowsKeepsRepeats(ParseLine(line));
  }

  // ---------------------------------------------------------------------------------------------
  // Written lines read back

  predicate NoComma(s: string)
  {
    ',' !in s
  }

  lemma {:induction false} DigitsHaveNoComma(s: string)
    requires AllDigits(s)
    ensures NoComma(s)
  {
    assert forall k :: 0 <= k < |s| ==> IsDigit(s[k]);
  }

  /** Written numbers, dates and flags never contain a comma. */
  lemma FormattedHaveNoComma(n: int, d: Date, b: bool, x: real)
    requires IsWholeAmount(x)
    ensures NoComma(FormatInt(n)) && NoComma(FormatDate(d)) && NoComma(FormatBool(b)) && NoComma(FormatAmount(x))
  {
    DigitsHaveNoComma(NatToDigits(if n < 0 then -n else n));
    assert Pow10(2) == 100 && Pow10(4) == 10000;
    DigitsHaveNoComma(PadDigits(d.year, 4));
    DigitsHaveNoComma(PadDigits(d.month, 2));
    DigitsHaveNoComma(PadDigits(d.day, 2));
    var m := x.Floor;
    DigitsHaveNoComma(NatToDigits(if m < 0 then -m else m));
  }

  /** The text fields of a member are free of commas, and its counters fit a Java int. */
  predicate Writable(m: MemberInfo)
  {
    NoComma(m.id) && NoComma(m.name) && NoComma(m.phoneNumber) && NoComma(m.email) && NoComma(m.gender)
    && INT_MIN <= m.attendanceCount <= INT_MAX && INT_MIN <= m.loyaltyPoints <= INT_MAX
  }

  lemma CommonFieldsParse(parts: seq<string>, m: MemberInfo)
    requires |parts| >= 11
    requires parts[1..6] == [m.id, m.name, m.phoneNumber, m.email, m.gender]
    requires ParseDate(parts[6]) == Some(m.dateOfBirth) && ParseDate(parts[7]) == Some(m.membershipStartDate)
    requires ParseInt(parts[8]) == Some(m.attendanceCount) && ParseInt(parts[9]) == Some(m.loyaltyPoints)
    requires ParseBoolean(parts[10]) == m.activeStatus
    ensures ParseCommon(parts) == Some(m)
  {
    assert parts[1] == m.id && parts[2] == m.name && parts[3] == m.phoneNumber;
    assert parts[4] == m.email && parts[5] == m.gender;
  }

  /** The common fields as written read back as the member's common state. */
  lemma CommonReadsBack(parts: seq<string>, m: MemberInfo)
    requires |parts| >= 11
    requires parts[1..6] == [m.id, m.name, m.phoneNumber, m.email, m.gender]
    requires parts[6] == FormatDate(m.dateOfBirth) && parts[7] == FormatDate(m.membershipStartDate)
    requires parts[8] == FormatInt(m.attendanceCount) && parts[9] == FormatInt(m.loyaltyPoints)
    requires parts[10] == FormatBool(m.activeStatus)
    requires INT_MIN <= m.attendanceCount <= INT_MAX && INT_MIN <= m.loyaltyPoints <= INT_MAX
    ensures ParseCommon(parts) == Some(m)
  {
    ParseFormatDate(m.dateOfBirth);
    ParseFormatDate(m.membershipStartDate);
    ParseFormatInt(m.attendanceCount, INT_MIN, INT_MAX);
    ParseFormatInt(m.loyaltyPoints, INT_MIN, INT_MAX);
    ParseFormatBool(m.activeStatus);
    CommonFieldsParse(parts, m);
  }

  lemma {:induction false} FieldsHaveNoComma(fields: seq<string>, m: MemberInfo, tag: string, tail: seq<string>, x: real)
    requires Writable(m) && NoComma(tag) && IsWholeAmount(x)
    requires forall k :: 0 <= k < |tail| ==> NoComma(tail[k])
    requires fields == [tag, m.id, m.name, m.phoneNumber, m.email, m.gender,
                        FormatDate(m.dateOfBirth), FormatDate(m.membershipStartDate),
                        FormatInt(m.attendanceCount), FormatInt(m.loyaltyPoints), FormatBool(m.activeStatus)] + tail
    ensures forall k :: 0 <= k < |fields| ==> ',' !in fields[k]
  {
    FormattedHaveNoComma(m.attendanceCount, m.dateOfBirth, m.activeStatus, x);
    FormattedHaveNoComma(m.loyaltyPoints, m.membershipStartDate, m.activeStatus, x);
    forall k | 0 <= k < |fields|
      ensures ',' !in fields[k]
    {
      if k >= 11 {
        assert fields[k] == tail[k - 11];
      }
    }
  }

  /** The fields of a written regular line come back from the split, less an empty removal reason. */
  lemma RegularLineSplits(r: Regular.RegularInfo)
    requires IsWholeAmount(r.price)
    requires Writable(r.member) && NoComma(r.membershipPlan) && NoComma(r.referralSource) && NoComma(r.removalReason)
    ensures Split(Join(Regular.FileFields(r), ','), ',') ==
              if r.removalReason == "" then Regular.FileFields(r)[..15] else Regular.FileFields(r)
  {
    var fields := Regular.FileFields(r);
    var m := r.member;
    var tail := [r.membershipPlan, FormatAmount(r.price), r.referralSource,
                 FormatBool(r.eligibleForUpgrade), r.removalReason];
    FormattedHaveNoComma(0, m.dateOfBirth, r.eligibleForUpgrade, r.price);
    assert forall k :: 0 <= k < |tail| ==> NoComma(tail[k]);
    FieldsHaveNoComma(fields, m, "REGULAR", tail, r.price);
    assert Join(fields, ',') != [] by {
      assert Join(fields, ',')[..7] == "REGULAR";
    }
    SplitOfJoin(fields, ',');
    if r.removalReason == "" {
      assert fields[14] == FormatBool(r.eligibleForUpgrade) != [];
      assert DropTrailingEmpty(fields[..15]) == fields[..15];
      assert fields[..15] == fields[..|fields| - 1];
    }
  }

  /** The fields of a regular line, with or without its removal reason, read as the member's row. */
  lemma RegularPartsParse(parts: seq<string>, m: MemberInfo, eligible: bool)
    requires 15 <= |parts| <= 16 && parts[0] == "REGULAR" && ParseCommon(parts) == Some(m)
    requires ParseBoolean(parts[14]) == eligible
    ensures ParseParts(parts) ==
              RegularRow(m, parts[11], parts[13], eligible, if |parts| > 15 then Some(parts[15]) else None)
  {
  }

  lemma RegularFieldsRead(r: Regular.RegularInfo)
    requires IsWholeAmount(r.price) && Writable(r.member)
    ensures ParseCommon(Regular.FileFields(r)) == Some(r.member)
    ensures ParseBoolean(Regular.FileFields(r)[14]) == r.eligibleForUpgrade
  {
    CommonReadsBack(Regular.FileFields(r), r.member);
    ParseFormatBool(r.eligibleForUpgrade);
  }

  lemma RegularFieldsParse(r: Regular.RegularInfo, parts: seq<string>)
    requires IsWholeAmount(r.price) && Writable(r.member)
    requires parts == Regular.FileFields(r) || (r.removalReason == "" && parts == Regular.FileFields(r)[..15])
    ensures ParseParts(parts) ==
              RegularRow(r.member, r.membershipPlan, r.referralSource, r.eligibleForUpgrade,
                         if |parts| > 15 then Some(r.removalReason) else None)
  {
    var fields := Regular.FileFields(r);
    RegularFieldsRead(r);
    assert ParseCommon(parts) == ParseCommon(fields) by {
      assert forall k :: 0 <= k < 11 ==> parts[k] == fields[k];
    }
    RegularPartsParse(parts, r.member, r.eligibleForUpgrade);
  }

  /**
   * A regular member written by `toFileString` is read back as the same member (field positions
   * agree), provided its text fields hold no comma: an empty removal reason is dropped by the split
   * as a trailing empty field and comes back empty.
   */
  lemma RegularLineReadsBack(r: Regular.RegularInfo)
    requires r.PriceMatchesPlan() && IsWholeAmount(r.price)
    requires Writable(r.member) && NoComma(r.membershipPlan) && NoComma(r.referralSource) && NoComma(r.removalReason)
    ensures ParseLine(Join(Regular.FileFields(r), ',')).RegularRow?
    ensures RowState(ParseLine(Join(Regular.FileFields(r), ','))) == RegularState(r)
  {
    RegularLineSplits(r);
    var parts := Split(Join(Regular.FileFields(r), ','), ',');
    RegularFieldsParse(r, parts);
    var row := ParseParts(parts);
    assert row.removalReason.Some? ==> row.removalReason.value == r.removalReason;
    assert row.removalReason.None? ==> r.removalReason == "";
  }

  /** The fields of a written premium line come back from the split. */
  lemma PremiumLineSplits(p: Premium.PremiumInfo)
    requires IsWholeAmount(p.paidAmount) && IsWholeAmount(p.discountAmount)
    requires Writable(p.member) && NoComma(p.personalTrainer)
    ensures Split(Join(Premium.FileFields(p), ','), ',') == Premium.FileFields(p)
  {
    var fields := Premium.FileFields(p);
    var m := p.member;
    var tail := [p.personalTrainer, FormatBool(p.paymentComplete), FormatAmount(p.paidAmount),
                 FormatAmount(p.discountAmount)];
    FormattedHaveNoComma(0, m.dateOfBirth, p.paymentComplete, p.paidAmount);
    FormattedHaveNoComma(0, m.dateOfBirth, p.paymentComplete, p.discountAmount);
    assert forall k :: 0 <= k < |tail| ==> NoComma(tail[k]);
    FieldsHaveNoComma(fields, m, "PREMIUM", tail, p.paidAmount);
    assert Join(fields, ',') != [] by {
      assert Join(fields, ',')[..7] == "PREMIUM";
    }
    SplitOfJoin(fields, ',');
    assert fields[14] == FormatAmount(p.discountAmount) != [];
  }

  /** The fields of a premium line read as the member's row. */
  lemma PremiumPartsParse(parts: seq<string>, m: MemberInfo, complete: bool, paid: real, discount: real)
    requires |parts| == 15 && parts[0] == "PREMIUM" && ParseCommon(parts) == Some(m)
    requires ParseBoolean(parts[12]) == complete
    requires ParseDecimal(parts[13]) == Some(paid) && ParseDecimal(parts[14]) == Some(discount)
    ensures ParseParts(parts) == PremiumRow(m, parts[11], complete, paid, discount)
  {
  }

  lemma PremiumAmountsRead(p: Premium.PremiumInfo)
    requires IsWholeAmount(p.paidAmount) && IsWholeAmount(p.discountAmount)
    ensures ParseDecimal(Premium.FileFields(p)[13]) == Some(p.paidAmount)
    ensures ParseDecimal(Premium.FileFields(p)[14]) == Some(p.discountAmount)
  {
    var paid, discount := FormatAmount(p.paidAmount), FormatAmount(p.discountAmount);
    assert Premium.FileFields(p)[13] == paid && Premium.FileFields(p)[14] == discount;
    ParseFormatAmount(p.paidAmount);
    ParseFormatAmount(p.discountAmount);
  }

  lemma PremiumFieldsParse(p: Premium.PremiumInfo)
    requires IsWholeAmount(p.paidAmount) && IsWholeAmount(p.discountAmount) && Writable(p.member)
    ensures ParseParts(Premium.FileFields(p)) ==
              PremiumRow(p.member, p.personalTrainer, p.paymentComplete, p.paidAmount, p.discountAmount)
  {
    CommonReadsBack(Premium.FileFields(p), p.member);
    PremiumAmountsRead(p);
    ParseFormatBool(p.paymentComplete);
    PremiumPartsParse(Premium.FileFields(p), p.member, p.paymentComplete, p.paidAmount, p.discountAmount);
  }

  /**
   * A premium member written by `toFileString` is read back as the same member, provided its text
   * fields hold no comma and it is not a member whose paid amount covers the charge while the
   * payment is marked incomplete (such a member comes back complete).
   */
  lemma PremiumLineReadsBack(p: Premium.PremiumInfo)
    requires IsWholeAmount(p.paidAmount) && IsWholeAmount(p.discountAmount)
    requires Writable(p.member) && NoComma(p.personalTrainer)
    requires p.CoveredIsComplete()
    ensures ParseLine(Join(Premium.FileFields(p), ',')).PremiumRow?
    ensures RowState(ParseLine(Join(Premium.FileFields(p), ','))) == PremiumState(p)
  {
    PremiumLineSplits(p);
    PremiumFieldsParse(p);
  }
}
