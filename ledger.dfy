/** The daily ledger (`dailyData`): for each user, the milliseconds worked on
    each calendar day, added to whenever a session closes. */
module Ledger {

  /** A user's platform id. */
  type UserId = string

  /** The calendar-day key the bot uses (a locale date label); opaque here. */
  type DateKey = string

  /** userId -> (date key -> accumulated milliseconds). */
  type Daily = map<UserId, map<DateKey, int>>

  /** The total recorded for a user on a day; an absent user or day counts as 0,
      as `(dailyData.get(userId)?.[day] || 0)` does. */
  function DayTotal(ledger: Daily, user: UserId, day: DateKey): int {
    if user in ledger && day in ledger[user] then ledger[user][day] else 0
  }

  /** The user's day map, empty when the user has none yet. */
  function DaysOf(ledger: Daily, user: UserId): map<DateKey, int> {
    if user in ledger then ledger[user] else map[]
  }

  /** Adding a closed session's duration to the user's total for `day`: the
      entry for (user, day) grows by exactly `ms`, it exists afterwards, and
      every other day of that user and every other user are left as they were. */
  function Record(ledger: Daily, user: UserId, day: DateKey, ms: int): (r: Daily)
    ensures r.Keys == ledger.Keys + {user}
    ensures r[user].Keys == DaysOf(ledger, user).Keys + {day}
    ensures DayTotal(r, user, day) == DayTotal(ledger, user, day) + ms
    ensures forall d :: d != day ==> DayTotal(r, user, d) == DayTotal(ledger, user, d)
    ensures forall u :: u in ledger && u != user ==> r[u] == ledger[u]
  {
    ledger[user := DaysOf(ledger, user)[day := DayTotal(ledger, user, day) + ms]]
  }

  /** The accumulation exactly as lines 70-73 and 296-299 of ponto.js write it:
      the key of the new entry and the day whose old total is read come from two
      separate calls to the date function, `keyDay` first and `lookupDay` a
      moment later. When both calls see the same day this is Record. */
  function RecordAsWritten(ledger: Daily, user: UserId, keyDay: DateKey, lookupDay: DateKey, ms: int): (r: Daily)
    ensures keyDay == lookupDay ==> r == Record(ledger, user, keyDay, ms)
    ensures DayTotal(r, user, keyDay) == DayTotal(ledger, user, lookupDay) + ms
  {
    ledger[user := DaysOf(ledger, user)[keyDay := DayTotal(ledger, user, lookupDay) + ms]]
  }

  /** If the day changes between the two date calls, the total already stored
      for the earlier day is discarded and replaced by this session alone. */
  lemma MidnightLostUpdate(ledger: Daily, user: UserId, keyDay: DateKey, lookupDay: DateKey, ms: int)
    requires keyDay != lookupDay
    requires DayTotal(ledger, user, lookupDay) == 0
    ensures DayTotal(RecordAsWritten(ledger, user, keyDay, lookupDay, ms), user, keyDay) == ms
    ensures DayTotal(Record(ledger, user, keyDay, ms), user, keyDay) - ms == DayTotal(ledger, user, keyDay)
  {
  }

  /** A concrete instance: 5000 ms already stored for "d1", a 1000 ms session
      closing as the date turns to "d2" leaves 1000 ms for "d1", where 6000 ms
      were due. */
  lemma MidnightExample()
    ensures DayTotal(RecordAsWritten(map["u" := map["d1" := 5000]], "u", "d1", "d2", 1000), "u", "d1") == 1000
    ensures DayTotal(Record(map["u" := map["d1" := 5000]], "u", "d1", 1000), "u", "d1") == 6000
  {
  }

  /** Two recordings commute, whatever users and days they are for. */
  lemma RecordCommutes(ledger: Daily, u1: UserId, d1: DateKey, a: int, u2: UserId, d2: DateKey, b: int)
    ensures Record(Record(ledger, u1, d1, a), u2, d2, b) == Record(Record(ledger, u2, d2, b), u1, d1, a)
  {
    if u1 != u2 {
      RecordCommutesUsers(ledger, u1, d1, a, u2, d2, b);
    } else if d1 != d2 {
      RecordCommutesDays(ledger, u1, d1, a, d2, b);
    } else {
      RecordAdds(ledger, u1, d1, a, b);
      RecordAdds(ledger, u1, d1, b, a);
    }
  }

  /** Recordings for two different users touch disjoint entries. */
  lemma RecordCommutesUsers(ledger: Daily, u1: UserId, d1: DateKey, a: int, u2: UserId, d2: DateKey, b: int)
    requires u1 != u2
    ensures Record(Record(ledger, u1, d1, a), u2, d2, b) == Record(Record(ledger, u2, d2, b), u1, d1, a)
  {
    var x1, x2 := DayTotal(ledger, u1, d1), DayTotal(ledger, u2, d2);
    var first1, first2 := Record(ledger, u1, d1, a), Record(ledger, u2, d2, b);
    var m1 := DaysOf(ledger, u1)[d1 := x1 + a];
    var m2 := DaysOf(ledger, u2)[d2 := x2 + b];
    assert DaysOf(first1, u2) == DaysOf(ledger, u2) && DayTotal(first1, u2, d2) == x2;
    assert DaysOf(first2, u1) == DaysOf(ledger, u1) && DayTotal(first2, u1, d1) == x1;
    SwapKeys(ledger, u1, m1, u2, m2);
  }

  /** Recordings for two different days of one user touch disjoint entries. */
  lemma RecordCommutesDays(ledger: Daily, user: UserId, d1: DateKey, a: int, d2: DateKey, b: int)
    requires d1 != d2
    ensures Record(Record(ledger, user, d1, a), user, d2, b) == Record(Record(ledger, user, d2, b), user, d1, a)
  {
    var days := DaysOf(ledger, user);
    var x1, x2 := DayTotal(ledger, user, d1), DayTotal(ledger, user, d2);
    RecordTwoDays(ledger, user, d1, a, d2, b);
    RecordTwoDays(ledger, user, d2, b, d1, a);
    SwapKeys(days, d1, x1 + a, d2, x2 + b);
  }

  /** Two recordings on different days of one user, as one update of the
      user's day map. */
  lemma RecordTwoDays(ledger: Daily, user: UserId, d1: DateKey, a: int, d2: DateKey, b: int)
    requires d1 != d2
    ensures Record(Record(ledger, user, d1, a), user, d2, b)
         == ledger[user := DaysOf(ledger, user)[d1 := DayTotal(ledger, user, d1) + a]
                                               [d2 := DayTotal(ledger, user, d2) + b]]
  {
    var days := DaysOf(ledger, user);
    var one := days[d1 := DayTotal(ledger, user, d1) + a];
    var first := ledger[user := one];
    assert DaysOf(first, user) == one;
    assert DayTotal(first, user, d2) == DayTotal(ledger, user, d2);
    OverwriteKey(ledger, user, one, one[d2 := DayTotal(ledger, user, d2) + b]);
  }

  /** Updating two different keys in either order gives the same map. */
  lemma SwapKeys<K, V>(m: map<K, V>, k1: K, v1: V, k2: K, v2: V)
    requires k1 != k2
    ensures m[k1 := v1][k2 := v2] == m[k2 := v2][k1 := v1]
  {
  }

  /** A second update of the same key overrides the first. */
  lemma OverwriteKey<K, V>(m: map<K, V>, k: K, v1: V, v2: V)
    ensures m[k := v1][k := v2] == m[k := v2]
  {
  }

  /** Two recordings for the same user and day add up: recording `a` then `b`
      is recording `a + b` once. */
  lemma RecordAdds(ledger: Daily, user: UserId, day: DateKey, a: int, b: int)
    ensures Record(Record(ledger, user, day, a), user, day, b) == Record(ledger, user, day, a + b)
  {
    var days := DaysOf(ledger, user);
    var x := DayTotal(ledger, user, day);
    var once := Record(ledger, user, day, a);
    assert once == ledger[user := days[day := x + a]];
    assert DaysOf(once, user) == days[day := x + a];
    assert DayTotal(once, user, day) == x + a;
    assert days[day := x + a][day := x + a + b] == days[day := x + a + b];
  }

  /** Recording 1000 ms then 2000 ms for the same user and day yields 3000 ms
      more than before, in either order. */
  lemma RecordExample(ledger: Daily, user: UserId, day: DateKey)
    ensures DayTotal(Record(Record(ledger, user, day, 1000), user, day, 2000), user, day) == DayTotal(ledger, user, day) + 3000
    ensures Record(Record(ledger, user, day, 1000), user, day, 2000) == Record(Record(ledger, user, day, 2000), user, day, 1000)
  {
    RecordCommutes(ledger, user, day, 1000, user, day, 2000);
  }

  /** Recording a non-negative duration never lowers any total, and every entry
      already present stays present. */
  lemma RecordNeverDecreases(ledger: Daily, user: UserId, day: DateKey, ms: int)
    requires 0 <= ms
    ensures forall u, d :: DayTotal(Record(ledger, user, day, ms), u, d) >= DayTotal(ledger, u, d)
    ensures forall u :: u in ledger ==> ledger[u].Keys <= Record(ledger, user, day, ms)[u].Keys
  {
  }
}
