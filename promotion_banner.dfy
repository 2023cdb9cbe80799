/** The storefront banner's choice of today's promotion
    (`getTodaysPromotion` in app/components/PromotionBanner.tsx). */
module PromotionBanner {

  import opened Common
  import opened Promotions

  const MsPerDay := 86_400_000

  /** The moment of the request: `now` in milliseconds, its local weekday
      (0 = Sunday) and the instant of local midnight that began the day. */
  datatype Clock = Clock(now: int, weekday: int, dayStart: int)

  predicate ValidClock(c: Clock) {
    0 <= c.weekday <= 6 && c.dayStart <= c.now < c.dayStart + MsPerDay
  }

  /** `setHours(0, 0, 0, 0)` and `setHours(23, 59, 59, 999)` on copies of now. */
  function TodayStart(c: Clock): int {
    c.dayStart
  }

  function TodayEnd(c: Clock): (e: int)
    ensures ValidClock(c) ==> TodayStart(c) <= c.now <= e
    ensures e - TodayStart(c) == MsPerDay - 1
  {
    c.dayStart + MsPerDay - 1
  }

  /** The `OR` of the query, branch by branch. */
  predicate WindowAsWritten(p: Promotion, todayStart: int, todayEnd: int) {
    (p.startDate.None? && p.endDate.None?)
    || (p.startDate.Some? && p.startDate.value <= todayEnd && p.endDate.None?)
    || (p.startDate.None? && p.endDate.Some? && p.endDate.value >= todayStart)
    || (p.startDate.Some? && p.endDate.Some? && p.startDate.value <= todayEnd && p.endDate.value >= todayStart)
  }

  /** The date window overlaps the day: each bound is either absent or on the
      right side of the day. */
  predicate Overlaps(p: Promotion, todayStart: int, todayEnd: int) {
    (p.startDate.None? || p.startDate.value <= todayEnd)
    && (p.endDate.None? || p.endDate.value >= todayStart)
  }

  /** The four branches amount to the two independent bounds. */
  lemma WindowIsOverlap(p: Promotion, todayStart: int, todayEnd: int)
    ensures WindowAsWritten(p, todayStart, todayEnd) <==> Overlaps(p, todayStart, todayEnd)
  {
  }

  /** The `where` clause: active, today's weekday listed, and the window. */
  predicate MatchesToday(p: Promotion, c: Clock) {
    p.active && c.weekday in p.daysOfWeek && WindowAsWritten(p, TodayStart(c), TodayEnd(c))
  }

  /** `findFirst` with `orderBy: { createdAt: 'desc' }`: a matching promotion
      that no other match postdates, the earliest in `ps` among equals. */
  function SelectNewest(ps: seq<Promotion>, matches: Promotion -> bool): (r: Option<Promotion>)
    ensures r.None? <==> forall i :: 0 <= i < |ps| ==> !matches(ps[i])
    ensures r.Some? ==> r.value in ps && matches(r.value)
    ensures r.Some? ==> forall i :: 0 <= i < |ps| && matches(ps[i]) ==> ps[i].createdAt <= r.value.createdAt
  {
    if ps == [] then None
    else
      var rest := SelectNewest(ps[1..], matches);
      assert forall i :: 1 <= i < |ps| ==> ps[i] == ps[1..][i - 1];
      if !matches(ps[0]) then rest
      else if rest.Some? && rest.value.createdAt > ps[0].createdAt then rest
      else Some(ps[0])
  }

  /** Today's promotion over the rows of the promotion table; `None` renders
      no banner. */
  function TodaysPromotion(ps: seq<Promotion>, c: Clock): (r: Option<Promotion>)
    ensures r.None? <==> forall p :: p in ps ==> !MatchesToday(p, c)
    ensures r.Some? ==> r.value in ps && r.value.active && c.weekday in r.value.daysOfWeek
    ensures r.Some? ==> Overlaps(r.value, TodayStart(c), TodayEnd(c))
    ensures r.Some? ==> forall p :: p in ps && MatchesToday(p, c) ==> p.createdAt <= r.value.createdAt
  {
    var r := SelectNewest(ps, (p: Promotion) => MatchesToday(p, c));
    if r.Some? then WindowIsOverlap(r.value, TodayStart(c), TodayEnd(c)); r else r
  }

  /** The bounds are compared with the ends of the day, not with now: a
      promotion that starts later today, or ended earlier today, is shown. */
  lemma SameDayBoundsMatch(p: Promotion, c: Clock)
    requires ValidClock(c) && p.active && c.weekday in p.daysOfWeek
    requires p.startDate.Some? ==> c.now < p.startDate.value <= TodayEnd(c)
    requires p.endDate.Some? ==> TodayStart(c) <= p.endDate.value < c.now
    ensures MatchesToday(p, c)
  {
  }

  /** Create writes the form's weekday to `dayOfWeek` and leaves
      `daysOfWeek` empty, so no promotion made through the admin form is
      ever chosen: it needs `daysOfWeek` written some other way. */
  lemma CreatedPromotionsNeverMatch(p: Promotion, c: Clock)
    requires p.daysOfWeek == []
    ensures !MatchesToday(p, c)
  {
  }

  /** The banner picks one of the promotions the newest-first order puts on
      top: no match is strictly newer. */
  lemma {:induction false} NoNewerMatch(ps: seq<Promotion>, c: Clock, q: Promotion)
    requires q in ps && MatchesToday(q, c)
    ensures TodaysPromotion(ps, c).Some?
    ensures TodaysPromotion(ps, c).value.createdAt >= q.createdAt
  {
    var i :| 0 <= i < |ps| && ps[i] == q;
    assert !(forall p :: p in ps ==> !MatchesToday(p, c));
  }
}
