/**
 * Presentation helpers and the expiry classifier of the client (`client/src/lib/utils.ts`).
 * The current instant, which the source reads from the clock, is the parameter `now`, one value
 * shared by both expiry checks.
 */
module Utils {
  import opened Wrappers
  import opened Strings
  import opened Schema

  // ---------------------------------------------------------------- icons by MIME type

  /** The Font Awesome icon for a MIME type; the first matching substring test wins. */
  function FileIconByMimeType(mimeType: string): (icon: string)
    ensures icon == "fa-file-pdf" <==> Contains(mimeType, "pdf")
    ensures icon == "fa-file-image" <==> !Contains(mimeType, "pdf") && Contains(mimeType, "image")
    ensures icon == "fa-file" <==>
      !Contains(mimeType, "pdf") && !Contains(mimeType, "image") &&
      !Contains(mimeType, "word") && !Contains(mimeType, "document") &&
      !Contains(mimeType, "excel") && !Contains(mimeType, "spreadsheet") &&
      !Contains(mimeType, "powerpoint") && !Contains(mimeType, "presentation")
  {
    if Contains(mimeType, "pdf") then "fa-file-pdf"
    else if Contains(mimeType, "image") then "fa-file-image"
    else if Contains(mimeType, "word") || Contains(mimeType, "document") then "fa-file-word"
    else if Contains(mimeType, "excel") || Contains(mimeType, "spreadsheet") then "fa-file-excel"
    else if Contains(mimeType, "powerpoint") || Contains(mimeType, "presentation") then "fa-file-powerpoint"
    else "fa-file"
  }

  /** The colour class for a MIME type, by the same tests in the same order. */
  function FileIconColorByMimeType(mimeType: string): (color: string)
    ensures color == "text-red-500" <==> Contains(mimeType, "pdf")
    ensures color == "text-gray-500" <==>
      !Contains(mimeType, "pdf") && !Contains(mimeType, "image") &&
      !Contains(mimeType, "word") && !Contains(mimeType, "document") &&
      !Contains(mimeType, "excel") && !Contains(mimeType, "spreadsheet") &&
      !Contains(mimeType, "powerpoint") && !Contains(mimeType, "presentation")
  {
    if Contains(mimeType, "pdf") then "text-red-500"
    else if Contains(mimeType, "image") then "text-blue-500"
    else if Contains(mimeType, "word") || Contains(mimeType, "document") then "text-blue-700"
    else if Contains(mimeType, "excel") || Contains(mimeType, "spreadsheet") then "text-green-600"
    else if Contains(mimeType, "powerpoint") || Contains(mimeType, "presentation") then "text-orange-500"
    else "text-gray-500"
  }

  /** The colour that goes with each icon. */
  function ColorOfIcon(icon: string): string {
    match icon
    case "fa-file-pdf" => "text-red-500"
    case "fa-file-image" => "text-blue-500"
    case "fa-file-word" => "text-blue-700"
    case "fa-file-excel" => "text-green-600"
    case "fa-file-powerpoint" => "text-orange-500"
    case _ => "text-gray-500"
  }

  /**
   * The icon and its colour always come from the same branch: the colour is determined by the
   * icon, and distinct icons get distinct colours.
   */
  lemma IconAndColorAgree(mimeType: string)
    ensures FileIconColorByMimeType(mimeType) == ColorOfIcon(FileIconByMimeType(mimeType))
    ensures FileIconByMimeType(mimeType) in
      {"fa-file-pdf", "fa-file-image", "fa-file-word", "fa-file-excel", "fa-file-powerpoint", "fa-file"}
  {
  }

  // ---------------------------------------------------------------- status and category classes

  const ValidStatus := "valid"
  const ExpiringSoonStatus := "expiring_soon"
  const ExpiredStatus := "expired"

  /** The three status strings the classifier produces. */
  predicate IsKnownStatus(status: string) {
    status == ValidStatus || status == ExpiringSoonStatus || status == ExpiredStatus
  }

  const DefaultStatusColor := "bg-slate-100 text-slate-700"

  /** The badge classes for a status; anything else gets the neutral default. */
  function DocumentStatusColor(status: string): (r: string)
    ensures r == DefaultStatusColor <==> !IsKnownStatus(status)
    ensures r in {"bg-success text-white", "bg-warning text-white", "bg-danger text-white",
                  DefaultStatusColor}
  {
    match status
    case "valid" => "bg-success text-white"
    case "expiring_soon" => "bg-warning text-white"
    case "expired" => "bg-danger text-white"
    case _ => DefaultStatusColor
  }

  const DefaultStatusIcon := "fa-calendar text-slate-400"

  /** The calendar icon for a status; anything else gets the plain calendar. */
  function DocumentStatusIcon(status: string): (r: string)
    ensures r == DefaultStatusIcon <==> !IsKnownStatus(status)
    ensures status == ExpiringSoonStatus || status == ExpiredStatus <==>
      r in {"fa-calendar-xmark text-warning", "fa-calendar-xmark text-danger"}
  {
    match status
    case "valid" => "fa-calendar-check text-slate-400"
    case "expiring_soon" => "fa-calendar-xmark text-warning"
    case "expired" => "fa-calendar-xmark text-danger"
    case _ => DefaultStatusIcon
  }

  const DefaultCategoryColor := "bg-slate-100 text-slate-600"

  /** The classes for a category's palette key; unknown keys get the neutral default. */
  function CategoryColor(color: string): (r: string)
    ensures r == DefaultCategoryColor <==> color !in {"primary", "success", "warning", "danger"}
  {
    match color
    case "primary" => "bg-primary-100 text-primary-600"
    case "success" => "bg-emerald-100 text-emerald-600"
    case "warning" => "bg-amber-100 text-amber-600"
    case "danger" => "bg-red-100 text-red-600"
    case _ => DefaultCategoryColor
  }

  // ---------------------------------------------------------------- expiry

  /** One day in milliseconds (`1000 * 60 * 60 * 24`). */
  const DayMs := 86400000

  /** `Math.ceil(n / d)` for a positive divisor: the least integer `q` with `n <= q * d`. */
  function CeilDiv(n: int, d: int): (q: int)
    requires d > 0
    ensures (q - 1) * d < n <= q * d
  {
    -((-n) / d)
  }

  /** `Math.ceil(diffTime / DayMs)`: whole days until `expiry`, a started day counting as one. */
  function DaysUntil(expiry: Instant, now: Instant): (days: int)
    ensures days > 0 <==> expiry > now
    ensures days <= 30 <==> expiry - now <= 30 * DayMs
  {
    CeilDiv(expiry - now, DayMs)
  }

  /**
   * `isDocumentExpiringSoon`: between 1 and 30 days are left, that is, the expiry lies after
   * `now` by at most 30 days to the millisecond.
   */
  function IsDocumentExpiringSoon(expiryDate: Option<Instant>, now: Instant): (soon: bool)
    ensures soon <==> expiryDate.Some? && now < expiryDate.value <= now + 30 * DayMs
  {
    match expiryDate
    case None => false
    case Some(expiry) =>
      var diffDays := DaysUntil(expiry, now);
      diffDays > 0 && diffDays <= 30
  }

  /**
   * `isDocumentExpired`: strictly before `now`. In days left that is "none left", except at the
   * expiry instant itself, where no days are left yet the document is not expired.
   */
  function IsDocumentExpired(expiryDate: Option<Instant>, now: Instant): (expired: bool)
    ensures expired <==>
      expiryDate.Some? && DaysUntil(expiryDate.value, now) <= 0 && expiryDate.value != now
  {
    match expiryDate
    case None => false
    case Some(expiry) => expiry < now
  }

  /**
   * `getDocumentStatus`: "expired" exactly when the expiry date lies before `now`,
   * "expiring_soon" exactly when it lies after `now` by at most 30 days (to the millisecond),
   * "valid" otherwise, including when there is no expiry date and when it equals `now`.
   */
  function DocumentStatus(expiryDate: Option<Instant>, now: Instant): (status: string)
    ensures IsKnownStatus(status)
    ensures expiryDate.None? ==> status == ValidStatus
    ensures status == ExpiredStatus <==> expiryDate.Some? && expiryDate.value < now
    ensures status == ExpiringSoonStatus <==>
      expiryDate.Some? && now < expiryDate.value <= now + 30 * DayMs
  {
    if expiryDate.None? then ValidStatus
    else if IsDocumentExpired(expiryDate, now) then ExpiredStatus
    else if IsDocumentExpiringSoon(expiryDate, now) then ExpiringSoonStatus
    else ValidStatus
  }

  /** The two expiry predicates never hold together. */
  lemma ExpiredExcludesExpiringSoon(expiryDate: Option<Instant>, now: Instant)
    ensures !(IsDocumentExpired(expiryDate, now) && IsDocumentExpiringSoon(expiryDate, now))
  {
  }

  /** Exactly 30 days ahead is "expiring_soon"; one millisecond later is "valid". */
  lemma ThirtyDayBoundary(now: Instant)
    ensures DocumentStatus(Some(now + 30 * DayMs), now) == ExpiringSoonStatus
    ensures DocumentStatus(Some(now + 30 * DayMs + 1), now) == ValidStatus
    ensures DaysUntil(now + 30 * DayMs + 1, now) == 31
  {
  }

  /** Expiring at exactly `now` is neither expired nor expiring soon. */
  lemma ExpiringNowIsValid(now: Instant)
    ensures DocumentStatus(Some(now), now) == ValidStatus
    ensures CalculateExpiryDays(Some(now), now) == 0
  {
  }

  /** The position of a status along the life of a document. */
  function StatusRank(status: string): int {
    if status == ExpiredStatus then 2 else if status == ExpiringSoonStatus then 1 else 0
  }

  /**
   * As written, the status steps back at the instant of expiry: one millisecond before it the
   * document is "expiring_soon", at it "valid", one millisecond after it "expired".
   */
  lemma StatusStepsBackAtExpiry(expiry: Instant)
    ensures DocumentStatus(Some(expiry), expiry - 1) == ExpiringSoonStatus
    ensures DocumentStatus(Some(expiry), expiry) == ValidStatus
    ensures DocumentStatus(Some(expiry), expiry + 1) == ExpiredStatus
    ensures StatusRank(DocumentStatus(Some(expiry), expiry - 1)) >
            StatusRank(DocumentStatus(Some(expiry), expiry))
  {
  }

  /**
   * The classifier with the boundary closed: a document whose expiry instant has been reached
   * (zero or fewer days left) is "expired".
   */
  function IntendedDocumentStatus(expiryDate: Option<Instant>, now: Instant): (status: string)
    ensures IsKnownStatus(status)
    ensures status == ExpiredStatus <==> expiryDate.Some? && DaysUntil(expiryDate.value, now) <= 0
    ensures status == ExpiringSoonStatus <==>
      expiryDate.Some? && now < expiryDate.value <= now + 30 * DayMs
  {
    match expiryDate
    case None => ValidStatus
    case Some(expiry) =>
      if expiry <= now then ExpiredStatus
      else if IsDocumentExpiringSoon(expiryDate, now) then ExpiringSoonStatus
      else ValidStatus
  }

  /** The corrected classifier differs from the source's only at the instant of expiry. */
  lemma IntendedDiffersOnlyAtExpiry(expiryDate: Option<Instant>, now: Instant)
    ensures IntendedDocumentStatus(expiryDate, now) != DocumentStatus(expiryDate, now) <==>
      expiryDate == Some(now)
  {
  }

  /**
   * With the corrected classifier the status only moves forward as time passes, valid to
   * expiring_soon to expired, for a fixed expiry date.
   */
  lemma IntendedStatusMovesForward(expiryDate: Option<Instant>, earlier: Instant, later: Instant)
    requires earlier <= later
    ensures StatusRank(IntendedDocumentStatus(expiryDate, earlier)) <=
            StatusRank(IntendedDocumentStatus(expiryDate, later))
  {
    if expiryDate.Some? {
      var e := expiryDate.value;
      var before, after := IntendedDocumentStatus(expiryDate, earlier), IntendedDocumentStatus(expiryDate, later);
      if after == ValidStatus {
        assert e > later + 30 * DayMs;
        assert before == ValidStatus;
      } else if after == ExpiringSoonStatus {
        assert before != ExpiredStatus;
      }
    }
  }

  /** `calculateExpiryDays`: whole days left, a started day counting as one, never negative. */
  function CalculateExpiryDays(expiryDate: Option<Instant>, now: Instant): (days: int)
    ensures days >= 0
    ensures expiryDate.None? ==> days == 0
    ensures days > 0 <==> expiryDate.Some? && expiryDate.value > now
    ensures days > 0 ==> (days - 1) * DayMs < expiryDate.value - now <= days * DayMs
  {
    match expiryDate
    case None => 0
    case Some(expiry) =>
      var diffDays := DaysUntil(expiry, now);
      if diffDays > 0 then diffDays else 0
  }

  /** A document is expiring soon exactly when it has between 1 and 30 days left. */
  lemma ExpiringSoonByDaysLeft(expiryDate: Option<Instant>, now: Instant)
    ensures IsDocumentExpiringSoon(expiryDate, now) <==> 1 <= CalculateExpiryDays(expiryDate, now) <= 30
  {
  }
}
