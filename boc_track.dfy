/** The Beginning-of-Construction track classifier: which statutory tracks
    (ITC/PTC through the 5% safe harbour, FEOC exemption) a project can use,
    given its capacity and the date of its payment. Capacity is counted in
    kilowatts AC, so the 1.5 MW split is the exact integer 1500. */
module BocTrack {
  import opened Calendar

  const SizeThresholdKw := 1500
  const FeocDeadline := Date(2025, 12, 31)
  const ItcSmallDeadline := Date(2026, 7, 4)

  const FeocOnlyLabel := "FEOC Exemption Only (5% safe harbor available)"
  const PhysicalWorkLabel := "Must use Physical Work Test"
  const LargeProjectDetails := "Projects >1.5MW cannot use 5% safe harbor for ITC/PTC after 9/2/25"
  const FivePercentTrack := "ITC/PTC via 5% safe harbor"
  const FeocTrack := "FEOC exemption"
  const NeitherLabel := "Neither track available"
  const TrackSeparator := " + "

  datatype TrackResult = TrackResult(track: string, eligible: bool, warning: bool, details: string)

  /** The parts, in order, with the separator between neighbours: the
      result starts with the first part and ends with the last. */
  function Join(parts: seq<string>, separator: string): (r: string)
    ensures |parts| == 0 ==> r == ""
    ensures |parts| > 0 ==> parts[0] <= r
    ensures |parts| > 0 ==> |parts[|parts| - 1]| <= |r| && r[|r| - |parts[|parts| - 1]|..] == parts[|parts| - 1]
  {
    if |parts| == 0 then ""
    else if |parts| == 1 then parts[0]
    else parts[0] + separator + Join(parts[1..], separator)
  }

  /** Pushing a part and joining again adds the separator and that part at
      the end, so the label lists the tracks in the order they were pushed. */
  lemma {:induction false} JoinPush(parts: seq<string>, x: string, separator: string)
    ensures Join(parts + [x], separator) == if parts == [] then x else Join(parts, separator) + separator + x
  {
    if |parts| == 1 {
      assert (parts + [x])[1..] == [x];
    } else if |parts| > 1 {
      assert (parts + [x])[1..] == parts[1..] + [x];
      JoinPush(parts[1..], x, separator);
    }
  }

  function DetermineBOCTrack(capacityKw: int, paymentDate: Date): (r: TrackResult)
    requires ValidDate(paymentDate)
    ensures r.warning == !r.eligible
  {
    var canQualifyFeoc := OnOrBefore(paymentDate, FeocDeadline);
    var canQualifyFivePercent := capacityKw <= SizeThresholdKw && OnOrBefore(paymentDate, ItcSmallDeadline);
    if capacityKw > SizeThresholdKw then
      TrackResult(
        if canQualifyFeoc then FeocOnlyLabel else PhysicalWorkLabel,
        canQualifyFeoc,
        !canQualifyFeoc,
        if capacityKw > SizeThresholdKw then LargeProjectDetails else "")
    else
      var tracks := (if canQualifyFivePercent then [FivePercentTrack] else [])
                    + (if canQualifyFeoc then [FeocTrack] else []);
      TrackResult(
        if |tracks| > 0 then Join(tracks, TrackSeparator) else NeitherLabel,
        |tracks| > 0,
        |tracks| == 0,
        "")
  }

  // ---------------------------------------------------------------------
  // The two cut-off dates, read field by field

  /** Paid on or before the FEOC deadline exactly when paid in 2025 or
      earlier. */
  lemma FeocDeadlineByYear(d: Date)
    requires ValidDate(d)
    ensures OnOrBefore(d, FeocDeadline) <==> d.year <= 2025
  {
    OnOrBeforeIsLexicographic(d, FeocDeadline);
  }

  /** Paid on or before the small-project deadline exactly when paid before
      2026, or in 2026 up to and including July 4. */
  lemma ItcDeadlineByFields(d: Date)
    requires ValidDate(d)
    ensures OnOrBefore(d, ItcSmallDeadline)
            <==> d.year < 2026 || (d.year == 2026 && (d.month < 7 || (d.month == 7 && d.day <= 4)))
  {
    OnOrBeforeIsLexicographic(d, ItcSmallDeadline);
  }

  /** The FEOC deadline precedes the small-project deadline, so a payment
      that meets the first meets the second. */
  lemma FeocImpliesItcWindow(d: Date)
    requires ValidDate(d)
    requires OnOrBefore(d, FeocDeadline)
    ensures OnOrBefore(d, ItcSmallDeadline)
  {
    FeocDeadlineByYear(d);
    ItcDeadlineByFields(d);
  }

  // ---------------------------------------------------------------------
  // The classifier, branch by branch

  /** Above 1.5 MW only the FEOC exemption is open, and only for payments
      made in 2025 or earlier. */
  lemma LargeProjectTrack(capacityKw: int, d: Date)
    requires ValidDate(d) && capacityKw > SizeThresholdKw
    ensures DetermineBOCTrack(capacityKw, d).eligible <==> d.year <= 2025
    ensures DetermineBOCTrack(capacityKw, d).warning <==> d.year > 2025
    ensures DetermineBOCTrack(capacityKw, d).track == if d.year <= 2025 then FeocOnlyLabel else PhysicalWorkLabel
    ensures DetermineBOCTrack(capacityKw, d).details == LargeProjectDetails
  {
    FeocDeadlineByYear(d);
  }

  /** Up to 1.5 MW: both tracks for a payment in 2025 or earlier, only the
      5% track from 2026-01-01 to 2026-07-04, none afterwards. */
  lemma SmallProjectTrack(capacityKw: int, d: Date)
    requires ValidDate(d) && capacityKw <= SizeThresholdKw
    ensures DetermineBOCTrack(capacityKw, d).track ==
              if d.year <= 2025 then FivePercentTrack + TrackSeparator + FeocTrack
              else if OnOrBefore(d, ItcSmallDeadline) then FivePercentTrack
              else NeitherLabel
    ensures DetermineBOCTrack(capacityKw, d).eligible <==> OnOrBefore(d, ItcSmallDeadline)
    ensures DetermineBOCTrack(capacityKw, d).details == ""
  {
    FeocDeadlineByYear(d);
    if d.year <= 2025 {
      FeocImpliesItcWindow(d);
      JoinPush([FivePercentTrack], FeocTrack, TrackSeparator);
    }
  }

  /** A small project's label is one of three, and the FEOC exemption never
      appears without the 5% track. */
  lemma SmallProjectLabels(capacityKw: int, d: Date)
    requires ValidDate(d) && capacityKw <= SizeThresholdKw
    ensures DetermineBOCTrack(capacityKw, d).track in
              {FivePercentTrack + TrackSeparator + FeocTrack, FivePercentTrack, NeitherLabel}
    ensures DetermineBOCTrack(capacityKw, d).track != FeocTrack
  {
    SmallProjectTrack(capacityKw, d);
    assert FeocTrack != FivePercentTrack + TrackSeparator + FeocTrack by {
      assert |FeocTrack| < |FivePercentTrack + TrackSeparator + FeocTrack|;
    }
    assert FeocTrack[0] != FivePercentTrack[0];
  }

  /** Whatever the capacity, a project paid on or before the FEOC deadline
      is eligible for some track. */
  lemma FeocPaymentIsEligible(capacityKw: int, d: Date)
    requires ValidDate(d)
    ensures OnOrBefore(d, FeocDeadline) ==> DetermineBOCTrack(capacityKw, d).eligible
  {
    if OnOrBefore(d, FeocDeadline) {
      FeocImpliesItcWindow(d);
    }
  }
}
