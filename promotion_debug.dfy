/** The promotion debug script (check-promotions.ts): its own version of the
    banner query, compared against the instant rather than the day, and the
    per-promotion diagnosis it writes when nothing matches. */
module PromotionDebug {

  import opened Common
  import opened Promotions
  import opened PromotionBanner

  /** `dateMatches`, branch by branch; a stored date is always truthy. */
  predicate DateMatches(p: Promotion, now: int) {
    (p.startDate.None? && p.endDate.None?)
    || (p.startDate.Some? && p.startDate.value <= now && p.endDate.None?)
    || (p.startDate.None? && p.endDate.Some? && p.endDate.value >= now)
    || (p.startDate.Some? && p.endDate.Some? && p.startDate.value <= now && p.endDate.value >= now)
  }

  lemma DateMatchesCases(p: Promotion, now: int)
    ensures p.startDate.None? && p.endDate.None? ==> DateMatches(p, now)
    ensures p.startDate.Some? && p.endDate.None? ==> (DateMatches(p, now) <==> p.startDate.value <= now)
    ensures p.startDate.None? && p.endDate.Some? ==> (DateMatches(p, now) <==> p.endDate.value >= now)
    ensures p.startDate.Some? && p.endDate.Some? ==>
              (DateMatches(p, now) <==> p.startDate.value <= now <= p.endDate.value)
  {
  }

  /** The script's query: the banner's conditions with `today` as both bounds. */
  predicate ScriptMatches(p: Promotion, c: Clock) {
    p.active && c.weekday in p.daysOfWeek && WindowAsWritten(p, c.now, c.now)
  }

  /** The query's `OR` with both bounds at the instant is `dateMatches`. */
  lemma ScriptWindowIsDateMatches(p: Promotion, now: int)
    ensures WindowAsWritten(p, now, now) <==> DateMatches(p, now)
  {
  }

  /** Whatever the script finds, the banner would show too (never the reverse
      in general): the instant lies inside the day. */
  lemma ScriptMatchImpliesBanner(p: Promotion, c: Clock)
    requires ValidClock(c) && ScriptMatches(p, c)
    ensures MatchesToday(p, c)
  {
    WindowIsOverlap(p, c.now, c.now);
    WindowIsOverlap(p, TodayStart(c), TodayEnd(c));
  }

  /** A promotion whose end date fell earlier today is shown by the banner
      but reported as not matching by the script. */
  lemma EndedEarlierToday(p: Promotion, c: Clock)
    requires ValidClock(c) && p.active && c.weekday in p.daysOfWeek
    requires p.startDate.None? && p.endDate.Some? && TodayStart(c) <= p.endDate.value < c.now
    ensures MatchesToday(p, c) && !ScriptMatches(p, c)
  {
  }

  /** The script's three verdicts on one promotion. */
  datatype Diagnosis = Diagnosis(inactive: bool, missingDay: bool, dateMatches: bool)

  function Diagnose(p: Promotion, c: Clock): (d: Diagnosis)
    ensures d.inactive <==> !p.active
    ensures d.missingDay <==> c.weekday !in p.daysOfWeek
    ensures d.dateMatches <==> DateMatches(p, c.now)
    ensures !d.inactive && !d.missingDay && d.dateMatches <==> ScriptMatches(p, c)
  {
    Diagnosis(!p.active, c.weekday !in p.daysOfWeek, DateMatches(p, c.now))
  }

  /** The body of the script without its text: the query's result and, when it
      found nothing, one diagnosis per promotion in the order `findMany`
      returned them. */
  method Report(all: seq<Promotion>, c: Clock) returns (found: Option<Promotion>, ds: seq<Diagnosis>)
    ensures found == SelectNewest(all, (p: Promotion) => ScriptMatches(p, c))
    // What the query finds: nothing exactly when no promotion matches at the
    // instant, otherwise the newest match, which the banner shows as well.
    ensures found.None? <==> forall p :: p in all ==> !ScriptMatches(p, c)
    ensures found.Some? ==> found.value in all && ScriptMatches(found.value, c)
    ensures found.Some? ==> forall p :: p in all && ScriptMatches(p, c) ==> p.createdAt <= found.value.createdAt
    ensures found.Some? && ValidClock(c) ==> MatchesToday(found.value, c)
    ensures found.Some? ==> ds == []
    ensures found.None? ==> |ds| == |all| && forall i :: 0 <= i < |all| ==> ds[i] == Diagnose(all[i], c)
    // Every promotion then fails at least one check.
    ensures found.None? ==> forall i :: 0 <= i < |ds| ==> ds[i].inactive || ds[i].missingDay || !ds[i].dateMatches
  {
    found := SelectNewest(all, (p: Promotion) => ScriptMatches(p, c));
    assert found.None? ==> forall p :: p in all ==> !ScriptMatches(p, c) by {
      if found.None? {
        forall p | p in all ensures !ScriptMatches(p, c) {
          var i :| 0 <= i < |all| && all[i] == p;
        }
      }
    }
    assert found.Some? ==> forall p :: p in all && ScriptMatches(p, c) ==> p.createdAt <= found.value.createdAt by {
      if found.Some? {
        forall p | p in all && ScriptMatches(p, c) ensures p.createdAt <= found.value.createdAt {
          var i :| 0 <= i < |all| && all[i] == p;
        }
      }
    }
    if found.Some? && ValidClock(c) {
      ScriptMatchImpliesBanner(found.value, c);
    }
    ds := [];
    if found.None? {
      for i := 0 to |all|
        invariant |ds| == i
        invariant forall j :: 0 <= j < i ==> ds[j] == Diagnose(all[j], c)
        invariant forall j :: 0 <= j < i ==> ds[j].inactive || ds[j].missingDay || !ds[j].dateMatches
      {
        ds := ds + [Diagnose(all[i], c)];
      }
    }
  }

  /** `checkPromotions` run against the promotion table: the report over
      every promotion, as `findMany` lists them. */
  method CheckPromotions(t: PromotionTable, c: Clock) returns (found: Option<Promotion>, ds: seq<Diagnosis>)
    requires t.Valid()
    ensures found.None? <==> forall p :: p in t.rows.Values ==> !ScriptMatches(p, c)
    ensures found.Some? ==> found.value in t.rows.Values && ScriptMatches(found.value, c)
    ensures found.Some? ==> forall p :: p in t.rows.Values && ScriptMatches(p, c) ==> p.createdAt <= found.value.createdAt
    ensures found.None? ==> |ds| == |t.Listed()| && forall i :: 0 <= i < |ds| ==> ds[i] == Diagnose(t.Listed()[i], c)
    ensures found.None? ==> forall d :: d in ds ==> d.inactive || d.missingDay || !d.dateMatches
  {
    var all := t.Listed();
    found, ds := Report(all, c);
  }
}
