/**
 * The branch logic of the formatting helpers: which relative-date label is
 * chosen, which compact-currency scale applies, and the category icon and
 * colour tables. The text produced by Intl.NumberFormat, date-fns and
 * toFixed is not modelled; only the choice and the scaled value are.
 */
module Formatters {
  import opened Wrappers

  /** 1000 * 60 * 60 * 24. */
  const MsPerDay: int := 86400000

  /**
   * `Math.ceil((target - now) / MsPerDay)` for two instants in milliseconds:
   * the least whole number of days that is at least the difference.
   */
  function DayDiff(target: int, now: int): (d: int)
    ensures (d - 1) * MsPerDay < target - now <= d * MsPerDay
  {
    -((now - target) / MsPerDay)
  }

  /** The day difference is unique: the bounds above pin it down. */
  lemma DayDiffUnique(target: int, now: int, d: int)
    requires (d - 1) * MsPerDay < target - now <= d * MsPerDay
    ensures d == DayDiff(target, now)
  {
  }

  datatype RelativeLabel =
    | Today | Tomorrow | Yesterday
    | InDays(n: int)     // "In N days"
    | DaysAgo(n: int)    // "N days ago"
    | AbsoluteDate       // formatDate(date)

  /**
   * formatRelativeDate's cascade over the day difference; None stands for
   * NaN, the difference of an unparseable date, which fails every test.
   */
  function LabelFor(diff: Option<int>): (l: RelativeLabel)
    ensures l.AbsoluteDate? <==> diff.None?
    ensures l.InDays? ==> diff == Some(l.n) && l.n > 1
    ensures l.DaysAgo? ==> diff == Some(-l.n) && l.n > 1
  {
    match diff
    case None => AbsoluteDate
    case Some(d) =>
      if d == 0 then Today
      else if d == 1 then Tomorrow
      else if d == -1 then Yesterday
      else if d > 1 then InDays(d)
      else if d < -1 then DaysAgo(if d < 0 then -d else d)
      else AbsoluteDate
  }

  /** formatRelativeDate(date) with `now` and the parsed date as instants; None is an Invalid Date. */
  function FormatRelativeDate(target: Option<int>, now: int): RelativeLabel {
    match target
    case None => LabelFor(None)
    case Some(t) => LabelFor(Some(DayDiff(t, now)))
  }

  /** The day difference a label stands for. */
  function DiffOf(l: RelativeLabel): Option<int> {
    match l
    case Today => Some(0)
    case Tomorrow => Some(1)
    case Yesterday => Some(-1)
    case InDays(n) => Some(n)
    case DaysAgo(n) => Some(-n)
    case AbsoluteDate => None
  }

  /**
   * The label loses no information: every integer difference gets one of the
   * five relative labels, and the difference can be read back from it.
   */
  lemma LabelRoundTrip(diff: Option<int>)
    ensures DiffOf(LabelFor(diff)) == diff
  {
  }

  /** In milliseconds: "Today" covers the day up to now, "Tomorrow" the next 24 hours. */
  lemma TodayAndTomorrowWindows(target: int, now: int)
    ensures FormatRelativeDate(Some(target), now) == Today <==> -MsPerDay < target - now <= 0
    ensures FormatRelativeDate(Some(target), now) == Tomorrow <==> 0 < target - now <= MsPerDay
    ensures FormatRelativeDate(Some(target), now) == Yesterday <==> -2 * MsPerDay < target - now <= -MsPerDay
  {
    var d := DayDiff(target, now);
    if -MsPerDay < target - now <= 0 { DayDiffUnique(target, now, 0); }
    if 0 < target - now <= MsPerDay { DayDiffUnique(target, now, 1); }
    if -2 * MsPerDay < target - now <= -MsPerDay { DayDiffUnique(target, now, -1); }
  }

  /** formatCompactCurrency: the scale chosen and the value shown before toFixed(1). */
  datatype Compact = Millions(scaled: real) | Thousands(scaled: real) | FullCurrency(amount: real)

  function CompactCurrency(amount: real): (c: Compact)
    ensures c.Millions? <==> amount >= 1000000.0
    ensures c.Thousands? <==> 1000.0 <= amount < 1000000.0
    ensures c.Millions? ==> c.scaled * 1000000.0 == amount && c.scaled >= 1.0
    ensures c.Thousands? ==> c.scaled * 1000.0 == amount && 1.0 <= c.scaled < 1000.0
    ensures c.FullCurrency? ==> c.amount == amount
  {
    if amount >= 1000000.0 then Millions(amount / 1000000.0)
    else if amount >= 1000.0 then Thousands(amount / 1000.0)
    else FullCurrency(amount)
  }

  function Scale(c: Compact): nat {
    match c
    case FullCurrency(_) => 0
    case Thousands(_) => 1
    case Millions(_) => 2
  }

  /** A larger amount never gets a smaller scale. */
  lemma CompactScaleMonotone(a: real, b: real)
    requires a <= b
    ensures Scale(CompactCurrency(a)) <= Scale(CompactCurrency(b))
  {
  }

  const CategoryIcons: map<string, string> := map[
    "Food" := "UtensilsCrossed", "Transport" := "Car", "Bills" := "Receipt",
    "Entertainment" := "Music", "Shopping" := "ShoppingBag", "Health" := "Heart",
    "Education" := "BookOpen", "Travel" := "Plane", "Other" := "MoreHorizontal"]

  const CategoryColors: map<string, string> := map[
    "Food" := "text-orange-600", "Transport" := "text-blue-600", "Bills" := "text-red-600",
    "Entertainment" := "text-purple-600", "Shopping" := "text-pink-600", "Health" := "text-green-600",
    "Education" := "text-indigo-600", "Travel" := "text-yellow-600", "Other" := "text-gray-600"]

  /** `icons[category] || "MoreHorizontal"` (every table entry is a non-empty string). */
  function CategoryIcon(category: string): (icon: string)
    ensures category in CategoryIcons ==> icon == CategoryIcons[category]
    ensures category !in CategoryIcons ==> icon == CategoryIcons["Other"]
  {
    if category in CategoryIcons && CategoryIcons[category] != "" then CategoryIcons[category]
    else "MoreHorizontal"
  }

  /** `colors[category] || "text-gray-600"`. */
  function CategoryColor(category: string): (color: string)
    ensures category in CategoryColors ==> color == CategoryColors[category]
    ensures category !in CategoryColors ==> color == CategoryColors["Other"]
  {
    if category in CategoryColors && CategoryColors[category] != "" then CategoryColors[category]
    else "text-gray-600"
  }
}
