/**
 * The message-history window of both ConversationMessagesViewSet.get_queryset
 * versions: keep the messages whose time lies in [since, until], order them
 * newest first, keep the first `limit`, and return them oldest first.
 * The store keeps messages in strictly increasing time order, so ordering by
 * "-time" is reversing.
 */
module History {
  import opened Domain

  ghost predicate Ascending(rows: seq<Message>)
  {
    forall i, j :: 0 <= i < j < |rows| ==> rows[i].time < rows[j].time
  }

  ghost predicate Descending(rows: seq<Message>)
  {
    forall i, j :: 0 <= i < j < |rows| ==> rows[i].time > rows[j].time
  }

  /** A queryset filter: the rows satisfying `p`, in their stored order. */
  function Keep(rows: seq<Message>, p: Message -> bool): (r: seq<Message>)
    ensures |r| <= |rows|
    ensures forall m :: m in r <==> m in rows && p(m)
  {
    if rows == [] then []
    else
      var init, last := rows[..|rows| - 1], rows[|rows| - 1];
      assert rows == init + [last];
      Keep(init, p) + (if p(last) then [last] else [])
  }

  /** Filtering keeps the stored time order. */
  lemma {:induction false} KeepAscending(rows: seq<Message>, p: Message -> bool)
    requires Ascending(rows)
    ensures Ascending(Keep(rows, p))
  {
    if rows != [] {
      var init, last := rows[..|rows| - 1], rows[|rows| - 1];
      KeepAscending(init, p);
      var k := Keep(init, p);
      forall m | m in k ensures m.time < last.time {
        var i :| 0 <= i < |init| && init[i] == m;
        assert rows[i] == m;
      }
    }
  }

  /** A row saved after the others of its conversation lists after them. */
  lemma {:induction false} KeepAppend(rows: seq<Message>, m: Message, p: Message -> bool)
    ensures Keep(rows + [m], p) == Keep(rows, p) + (if p(m) then [m] else [])
  {
    assert (rows + [m])[..|rows + [m]| - 1] == rows;
  }

  function Reverse(rows: seq<Message>): (r: seq<Message>)
    ensures |r| == |rows|
    ensures forall i :: 0 <= i < |rows| ==> r[i] == rows[|rows| - 1 - i]
  {
    if rows == [] then [] else Reverse(rows[1..]) + [rows[0]]
  }

  /** order_by("-time") on rows the store keeps in time order. */
  lemma NewestFirst(rows: seq<Message>)
    requires Ascending(rows)
    ensures Descending(Reverse(rows))
    ensures multiset(Reverse(rows)) == multiset(rows)
  {
    var r := Reverse(rows);
    if rows != [] {
      assert rows == [rows[0]] + rows[1..];
      assert r == Reverse(rows[1..]) + [rows[0]];
      NewestFirst(rows[1..]);
    }
  }

  /** `exclude(time__gt=until)` and `exclude(time__lt=since)` both keep m. */
  predicate InRange(m: Message, since: Option<int>, until: Option<int>)
  {
    (until.None? || m.time <= until.value) && (since.None? || m.time >= since.value)
  }

  /** q[:limit] */
  function Take(rows: seq<Message>, limit: Option<nat>): (r: seq<Message>)
  {
    if limit.None? || limit.value >= |rows| then rows else rows[..limit.value]
  }

  /** list(reversed(q.order_by("-time")[:limit])) */
  function Window(rows: seq<Message>, limit: Option<nat>): seq<Message>
  {
    Reverse(Take(Reverse(rows), limit))
  }

  function Min(a: nat, b: nat): nat
  {
    if a <= b then a else b
  }

  /** The window is the newest `limit` rows, oldest first. */
  lemma WindowIsNewestSuffix(rows: seq<Message>, limit: Option<nat>)
    ensures limit.None? ==> Window(rows, limit) == rows
    ensures limit.Some? ==> Window(rows, limit) == rows[|rows| - Min(limit.value, |rows|)..]
  {
    var n := if limit.None? then |rows| else Min(limit.value, |rows|);
    var rev := Reverse(rows);
    var t := Take(rev, limit);
    assert t == rev[..n];
    var w := Reverse(t);
    assert w == Window(rows, limit);
    var suffix := rows[|rows| - n..];
    forall i | 0 <= i < n ensures w[i] == suffix[i] {
      calc {
        w[i];
        t[n - 1 - i];
        rev[n - 1 - i];
        rows[|rows| - n + i];
      }
    }
    assert w == suffix;
  }

  /** Each of "until" / "since": absent, a parsed date-time, the literal "now", or a ParseError. */
  function ResolveBound(param: Option<string>, parseDateTime: string -> Option<int>, now: int)
    : (r: Result<Option<int>>)
    ensures param.None? ==> r == Success(None)
    ensures param.Some? && parseDateTime(param.value).Some? ==>
              r == Success(parseDateTime(param.value))
    ensures param.Some? && parseDateTime(param.value).None? ==>
              if param.value == "now" then r == Success(Some(now))
              else r == Failure(ParseError("Invalid date-time string: " + param.value))
  {
    match param
    case None => Success(None)
    case Some(s) =>
      match parseDateTime(s)
      case Some(t) => Success(Some(t))
      case None =>
        if s == "now" then Success(Some(now))
        else Failure(ParseError("Invalid date-time string: " + s))
  }

  /** str.isdigit() on ASCII text. */
  predicate IsDigits(s: string)
  {
    |s| > 0 && forall i :: 0 <= i < |s| ==> '0' <= s[i] <= '9'
  }

  /** int(s) for a string of ASCII digits. */
  function DigitsValue(s: string): nat
    requires forall i :: 0 <= i < |s| ==> '0' <= s[i] <= '9'
  {
    if s == [] then 0
    else DigitsValue(s[..|s| - 1]) * 10 + (s[|s| - 1] as int - '0' as int)
  }

  lemma {:induction false} DigitsOfNatText(n: nat)
    ensures IsDigits(NatText(n)) && DigitsValue(NatText(n)) == n
  {
    var s := NatText(n);
    if n >= 10 {
      DigitsOfNatText(n / 10);
      assert s[..|s| - 1] == NatText(n / 10);
    }
  }

  /** `limit`: absent, all digits, or a ParseError. */
  function ParseLimit(param: Option<string>): (r: Result<Option<nat>>)
    ensures param.None? ==> r == Success(None)
    ensures param.Some? ==> (r.Success? <==> IsDigits(param.value))
    ensures param.Some? && r.Failure? ==> r.error == ParseError("Invalid limit: " + param.value)
  {
    match param
    case None => Success(None)
    case Some(s) =>
      if IsDigits(s) then Success(Some(DigitsValue(s)))
      else Failure(ParseError("Invalid limit: " + s))
  }

  /** A limit written as str(n) reads back as n. */
  lemma LimitRoundTrip(n: nat)
    ensures ParseLimit(Some(NatText(n))) == Success(Some(n))
  {
    DigitsOfNatText(n);
  }

  /** The rows kept by `exclude(time__gt=until)` and `exclude(time__lt=since)`. */
  function Bounded(rows: seq<Message>, since: Option<int>, until: Option<int>): seq<Message>
  {
    Keep(rows, m => InRange(m, since, until))
  }

  /**
   * The part of get_queryset shared by both versions, applied to the rows
   * that passed its version's own filters: until, then since, then limit.
   */
  function Query(rows: seq<Message>, until: Option<string>, since: Option<string>,
                 limit: Option<string>, parseDateTime: string -> Option<int>, now: int)
    : (r: Result<seq<Message>>)
  {
    var u :- ResolveBound(until, parseDateTime, now);
    var s :- ResolveBound(since, parseDateTime, now);
    var k :- ParseLimit(limit);
    Success(Window(Bounded(rows, s, u), k))
  }

  /**
   * The window of ascending rows is ascending, holds min(limit, |rows|) of
   * them, and every row it leaves out is older than every row it keeps.
   */
  lemma WindowKeepsNewest(rows: seq<Message>, k: Option<nat>)
    requires Ascending(rows)
    ensures var w := Window(rows, k);
            && Ascending(w)
            && (forall m :: m in w ==> m in rows)
            && |w| == (if k.None? then |rows| else Min(k.value, |rows|))
            && (forall m, m' :: m in rows && m !in w && m' in w ==> m.time < m'.time)
  {
    WindowIsNewestSuffix(rows, k);
    var n := |rows| - (if k.None? then |rows| else Min(k.value, |rows|));
    SuffixKeepsNewest(rows, n);
  }

  lemma SuffixKeepsNewest(rows: seq<Message>, n: nat)
    requires Ascending(rows) && n <= |rows|
    ensures Ascending(rows[n..])
    ensures forall m :: m in rows[n..] ==> m in rows
    ensures forall m, m' :: m in rows && m !in rows[n..] && m' in rows[n..] ==> m.time < m'.time
  {
    var w := rows[n..];
    forall m, m' | m in rows && m !in w && m' in w ensures m.time < m'.time {
      var i :| 0 <= i < |rows| && rows[i] == m;
      var j :| 0 <= j < |w| && w[j] == m';
      assert rows[n + j] == m';
    }
  }

  /**
   * A query fails exactly when a bound or the limit does not parse, and
   * returns only rows it was given.
   */
  lemma QueryFromRows(rows: seq<Message>, until: Option<string>, since: Option<string>,
                      limit: Option<string>, parseDateTime: string -> Option<int>, now: int)
    ensures var r := Query(rows, until, since, limit, parseDateTime, now);
            && (r.Success? <==> && ResolveBound(until, parseDateTime, now).Success?
                                && ResolveBound(since, parseDateTime, now).Success?
                                && ParseLimit(limit).Success?)
            && (r.Failure? ==> r.error.ParseError?)
            && (r.Success? ==> forall m :: m in r.value ==> m in rows)
  {
    var r := Query(rows, until, since, limit, parseDateTime, now);
    if r.Success? {
      var u := ResolveBound(until, parseDateTime, now).value;
      var s := ResolveBound(since, parseDateTime, now).value;
      var k := ParseLimit(limit).value;
      WindowIsNewestSuffix(Bounded(rows, s, u), k);
    }
  }

  /**
   * What a successful query returns: the newest `limit` rows whose time
   * lies in the resolved range, in ascending time order; every in-range row
   * left out is older than every row returned. The query fails exactly when
   * a bound or the limit does not parse.
   */
  lemma QueryWindow(rows: seq<Message>, until: Option<string>, since: Option<string>,
                    limit: Option<string>, parseDateTime: string -> Option<int>, now: int)
    requires Ascending(rows)
    ensures var r := Query(rows, until, since, limit, parseDateTime, now);
            r.Success? <==>
              ResolveBound(until, parseDateTime, now).Success?
              && ResolveBound(since, parseDateTime, now).Success?
              && ParseLimit(limit).Success?
    ensures var r := Query(rows, until, since, limit, parseDateTime, now);
            r.Success? ==>
              var u := ResolveBound(until, parseDateTime, now).value;
              var s := ResolveBound(since, parseDateTime, now).value;
              var k := ParseLimit(limit).value;
              var inRange := Bounded(rows, s, u);
              && Ascending(r.value)
              && (forall m :: m in r.value ==> m in rows && InRange(m, s, u))
              && |r.value| == (if k.None? then |inRange| else Min(k.value, |inRange|))
              && (forall m, m' :: m in inRange && m !in r.value && m' in r.value ==> m.time < m'.time)
  {
    var r := Query(rows, until, since, limit, parseDateTime, now);
    if r.Success? {
      var u := ResolveBound(until, parseDateTime, now).value;
      var s := ResolveBound(since, parseDateTime, now).value;
      var k := ParseLimit(limit).value;
      KeepAscending(rows, m => InRange(m, s, u));
      WindowKeepsNewest(Bounded(rows, s, u), k);
    }
  }
}
