/**
  The mock train search (backend/simple-lambda/searchTrains.js): a
  case-insensitive substring filter of a constant train table on the
  origin and destination, each match stamped with the travel date.
 */
module TrainSearch {
  import opened Values
  import opened Text

  datatype Train = Train(
    trainId: nat,
    number: string,
    name: string,
    from: string,
    to: string,
    departure: string,
    arrival: string,
    duration: string,
    seats: nat,
    fare: nat)

  /** A search result: every field of the train plus the date. */
  datatype DatedTrain = DatedTrain(train: Train, date: string)

  const MockTrains: seq<Train> := [
    Train(1, "12001", "Shatabdi Express", "New Delhi", "Mumbai Central", "08:00", "14:00", "6h", 45, 750),
    Train(2, "12951", "Mumbai Rajdhani", "New Delhi", "Mumbai Central", "16:30", "08:35", "16h 5m", 38, 1850),
    Train(3, "12953", "August Kranti Rajdhani", "New Delhi", "Mumbai Central", "17:55", "10:15", "16h 20m", 42, 1900),
    Train(4, "12622", "Tamil Nadu Express", "New Delhi", "Chennai Central", "22:30", "07:00", "32h 30m", 55, 1200),
    Train(5, "12434", "Chennai Rajdhani", "New Delhi", "Chennai Central", "15:55", "09:30", "27h 35m", 40, 2100),
    Train(6, "12133", "Mangalore Express", "Mumbai Central", "Bangalore City", "22:00", "06:00", "24h", 48, 850),
    Train(7, "16529", "Udyan Express", "Mumbai Central", "Bangalore City", "08:05", "07:30", "23h 25m", 52, 780),
    Train(8, "12785", "Kacheguda SF Express", "Bangalore City", "Hyderabad", "20:00", "05:50", "9h 50m", 60, 650),
    Train(9, "12864", "Yesvantpur Express", "Bangalore City", "Hyderabad", "06:00", "15:30", "9h 30m", 55, 620),
    Train(10, "12301", "Howrah Rajdhani", "New Delhi", "Kolkata", "16:55", "10:05", "17h 10m", 45, 1950),
    Train(11, "12313", "Sealdah Rajdhani", "New Delhi", "Kolkata", "16:35", "10:35", "18h", 42, 1900),
    Train(12, "12952", "New Delhi Rajdhani", "Mumbai Central", "New Delhi", "17:05", "08:35", "15h 30m", 50, 1850),
    Train(13, "12954", "August Kranti Rajdhani", "Mumbai Central", "New Delhi", "17:25", "09:55", "16h 30m", 48, 1900)
  ]

  /** The query string parameters. */
  datatype Query = Query(from: Option<string>, to: Option<string>, date: Option<string>)

  /** The parts of the event the handler reads; `today` is the date part of the clock. */
  datatype SearchEvent = SearchEvent(
    httpMethod: Option<string>,
    contextHttpMethod: Option<string>,
    queryStringParameters: Option<Query>,
    paramsQuerystring: Option<Query>)

  datatype SearchResponse = Preflight | MissingParameters | Found(trains: seq<DatedTrain>)
  {
    function StatusCode(): int {
      match this
      case Preflight => 200
      case MissingParameters => 400
      case Found(_) => 200
    }
  }

  /** The filter's test for one train; the handler has already made sure
      both query values are non-empty. */
  predicate Matches(t: Train, from: string, to: string) {
    Contains(ToLower(t.from), ToLower(from)) && Contains(ToLower(t.to), ToLower(to))
  }

  /** `trains.filter(...)`. */
  function FilterTrains(trains: seq<Train>, from: string, to: string): seq<Train>
    decreases |trains|
  {
    if trains == [] then []
    else if Matches(trains[0], from, to) then [trains[0]] + FilterTrains(trains[1..], from, to)
    else FilterTrains(trains[1..], from, to)
  }

  /** `.map(t => ({...t, date}))`: the trains keep their order and every
      field, and every one of them carries the date. */
  function WithDate(trains: seq<Train>, date: string): (r: seq<DatedTrain>)
    ensures |r| == |trains|
    ensures forall i :: 0 <= i < |r| ==> r[i].train == trains[i]
    ensures forall d :: d in r ==> d.date == date
  {
    seq(|trains|, i requires 0 <= i < |trains| => DatedTrain(trains[i], date))
  }

  /** One call of the search handler over the train table `trains`. */
  function SearchIn(trains: seq<Train>, ev: SearchEvent, today: string): SearchResponse {
    if ev.httpMethod == Some("OPTIONS") || ev.contextHttpMethod == Some("OPTIONS") then Preflight
    else
      var q := if ev.queryStringParameters.Some? then ev.queryStringParameters.value
               else if ev.paramsQuerystring.Some? then ev.paramsQuerystring.value
               else Query(None, None, None);
      if !Present(q.from) || !Present(q.to) then MissingParameters
      else Found(WithDate(FilterTrains(trains, q.from.value, q.to.value), OrElse(q.date, today)))
  }

  /** One call of the search handler. */
  function Search(ev: SearchEvent, today: string): SearchResponse {
    SearchIn(MockTrains, ev, today)
  }

  /** `a` is `b` with some elements left out, in the same order. */
  predicate IsSubsequence<T(==)>(a: seq<T>, b: seq<T>)
    decreases |b|
  {
    if a == [] then true
    else if b == [] then false
    else (a[0] == b[0] && IsSubsequence(a[1..], b[1..])) || IsSubsequence(a, b[1..])
  }

  /** The result holds exactly the trains of the table that match. */
  lemma {:induction false} FilterMembership(trains: seq<Train>, from: string, to: string, t: Train)
    ensures t in FilterTrains(trains, from, to) <==> t in trains && Matches(t, from, to)
    decreases |trains|
  {
    if trains != [] {
      FilterMembership(trains[1..], from, to, t);
      assert t in trains <==> t == trains[0] || t in trains[1..];
    }
  }

  /** The result keeps the table's order: it is a subsequence of it. */
  lemma {:induction false} FilterIsSubsequence(trains: seq<Train>, from: string, to: string)
    ensures IsSubsequence(FilterTrains(trains, from, to), trains)
    decreases |trains|
  {
    if trains != [] {
      var rest := FilterTrains(trains[1..], from, to);
      FilterIsSubsequence(trains[1..], from, to);
      if Matches(trains[0], from, to) {
        var r := [trains[0]] + rest;
        assert r[0] == trains[0] && r[1..] == rest;
      } else {
        SubsequenceOfTail(rest, trains);
      }
    }
  }

  lemma SubsequenceOfTail<T>(a: seq<T>, b: seq<T>)
    requires b != [] && IsSubsequence(a, b[1..])
    ensures IsSubsequence(a, b)
  {
  }

  /** Changing the letter case of the query does not change the result. */
  lemma {:induction false} FilterIgnoresCase(trains: seq<Train>, from: string, to: string, from': string, to': string)
    requires ToLower(from) == ToLower(from') && ToLower(to) == ToLower(to')
    ensures FilterTrains(trains, from, to) == FilterTrains(trains, from', to')
    decreases |trains|
  {
    if trains != [] {
      FilterIgnoresCase(trains[1..], from, to, from', to');
    }
  }

  /** Upper-casing the query does not change the answer, whatever the table. */
  lemma SearchIgnoresCase(trains: seq<Train>, from: string, to: string, date: Option<string>, today: string)
    ensures var q := Query(Some(from), Some(to), date);
            var q' := Query(Some(ToUpper(from)), Some(ToUpper(to)), date);
            SearchIn(trains, SearchEvent(None, None, Some(q), None), today)
            == SearchIn(trains, SearchEvent(None, None, Some(q'), None), today)
  {
    var ev := SearchEvent(None, None, Some(Query(Some(from), Some(to), date)), None);
    var ev' := SearchEvent(None, None, Some(Query(Some(ToUpper(from)), Some(ToUpper(to)), date)), None);
    assert |ToUpper(from)| == |from| && |ToUpper(to)| == |to|;
    if from != "" && to != "" {
      LowerOfUpper(from);
      LowerOfUpper(to);
      FilterIgnoresCase(trains, from, to, ToUpper(from), ToUpper(to));
      var d := OrElse(date, today);
      assert SearchIn(trains, ev, today) == Found(WithDate(FilterTrains(trains, from, to), d));
      assert SearchIn(trains, ev', today) == Found(WithDate(FilterTrains(trains, ToUpper(from), ToUpper(to)), d));
    } else {
      assert SearchIn(trains, ev, today) == MissingParameters && SearchIn(trains, ev', today) == MissingParameters;
    }
  }

  /** What the handler answers to a search: 400 without both `from` and
      `to`; otherwise every matching train of the table, in table order,
      each with all its fields and the query date (or today's date); this
      holds for any table. */
  lemma SearchResult(trains: seq<Train>, ev: SearchEvent, today: string)
    requires ev.httpMethod != Some("OPTIONS") && ev.contextHttpMethod != Some("OPTIONS")
    ensures var q := if ev.queryStringParameters.Some? then ev.queryStringParameters.value
                     else if ev.paramsQuerystring.Some? then ev.paramsQuerystring.value
                     else Query(None, None, None);
            var r := SearchIn(trains, ev, today);
            && (!Present(q.from) || !Present(q.to) <==> r == MissingParameters)
            && (Present(q.from) && Present(q.to) <==> r.Found?)
            && (r.Found? ==>
                 && IsSubsequence(seq(|r.trains|, i requires 0 <= i < |r.trains| => r.trains[i].train), trains)
                 && (forall t :: t in trains && Matches(t, q.from.value, q.to.value) <==>
                                 exists i :: 0 <= i < |r.trains| && r.trains[i].train == t)
                 && (forall i :: 0 <= i < |r.trains| ==>
                       r.trains[i].date == (if Present(q.date) then q.date.value else today)))
  {
    var r := SearchIn(trains, ev, today);
    if r.Found? {
      var q := if ev.queryStringParameters.Some? then ev.queryStringParameters.value
               else if ev.paramsQuerystring.Some? then ev.paramsQuerystring.value
               else Query(None, None, None);
      var filtered := FilterTrains(trains, q.from.value, q.to.value);
      assert seq(|r.trains|, i requires 0 <= i < |r.trains| => r.trains[i].train) == filtered;
      FilterIsSubsequence(trains, q.from.value, q.to.value);
      forall t
        ensures t in trains && Matches(t, q.from.value, q.to.value) <==>
                exists i :: 0 <= i < |r.trains| && r.trains[i].train == t
      {
        FilterMembership(trains, q.from.value, q.to.value, t);
        if t in filtered {
          var i :| 0 <= i < |filtered| && filtered[i] == t;
          assert r.trains[i].train == t;
        }
      }
    }
  }

  /** A search whose first letter does not occur in the text finds nothing. */
  lemma {:induction false} MissingFirstLetter(s: string, sub: string)
    requires sub != [] && sub[0] !in s
    ensures !Contains(s, sub)
    decreases |s|
  {
    if s != [] {
      assert s[0] != sub[0];
      assert sub[0] !in s[1..] by {
        assert forall i :: 0 <= i < |s[1..]| ==> s[1..][i] == s[i + 1];
      }
      MissingFirstLetter(s[1..], sub);
    }
  }

  lemma DelhiMatches(t: Train)
    requires t.from == "New Delhi"
    ensures Contains(ToLower(t.from), "delhi")
  {
    assert ToLower(t.from) == "new delhi";
    assert OccursAt("new delhi", "delhi", 4);
    ContainsIffOccurs("new delhi", "delhi");
  }

  lemma MumbaiMatches(t: Train)
    requires t.to == "Mumbai Central"
    ensures Contains(ToLower(t.to), "mumbai")
  {
    assert ToLower(t.to) == "mumbai central";
    assert OccursAt("mumbai central", "mumbai", 0);
    ContainsIffOccurs("mumbai central", "mumbai");
  }

  /** A train whose lower-cased station lacks the query's first letter
      is not in the result. */
  lemma LacksLetter(station: string, lower: string, query: string)
    requires ToLower(station) == lower && query != [] && query[0] !in lower
    ensures !Contains(ToLower(station), query)
  {
    MissingFirstLetter(lower, query);
  }

  lemma NotFromDelhi(t: Train)
    requires t.from == "Mumbai Central" || t.from == "Bangalore City"
    ensures !Matches(t, "delhi", "mumbai")
  {
    assert ToLower("delhi") == "delhi";
    if t.from == "Mumbai Central" {
      assert ToLower("Mumbai Central") == "mumbai central";
      assert 'd' !in "mumbai central";
      LacksLetter(t.from, "mumbai central", "delhi");
    } else {
      assert ToLower("Bangalore City") == "bangalore city";
      assert 'd' !in "bangalore city";
      LacksLetter(t.from, "bangalore city", "delhi");
    }
  }

  lemma NotToMumbai(t: Train)
    requires t.to == "Chennai Central" || t.to == "Kolkata"
    ensures !Matches(t, "delhi", "mumbai")
  {
    assert ToLower("mumbai") == "mumbai";
    if t.to == "Chennai Central" {
      assert ToLower("Chennai Central") == "chennai central";
      assert 'm' !in "chennai central";
      LacksLetter(t.to, "chennai central", "mumbai");
    } else {
      assert ToLower("Kolkata") == "kolkata";
      assert 'm' !in "kolkata";
      LacksLetter(t.to, "kolkata", "mumbai");
    }
  }

  /** One step of the filter, at position `k` of the table. */
  lemma FilterStep(ts: seq<Train>, k: nat, from: string, to: string)
    requires k < |ts|
    ensures FilterTrains(ts[k..], from, to)
            == (if Matches(ts[k], from, to) then [ts[k]] else []) + FilterTrains(ts[k + 1..], from, to)
  {
    assert ts[k..][1..] == ts[k + 1..];
  }

  /** The first three trains run from a Delhi station to a Mumbai station. */
  lemma DelhiToMumbaiMatches()
    ensures Matches(MockTrains[0], "delhi", "mumbai")
    ensures Matches(MockTrains[1], "delhi", "mumbai")
    ensures Matches(MockTrains[2], "delhi", "mumbai")
  {
    assert ToLower("delhi") == "delhi" && ToLower("mumbai") == "mumbai";
    DelhiMatches(MockTrains[0]); MumbaiMatches(MockTrains[0]);
    DelhiMatches(MockTrains[1]); MumbaiMatches(MockTrains[1]);
    DelhiMatches(MockTrains[2]); MumbaiMatches(MockTrains[2]);
  }

  /** None of the other ten trains does. */
  lemma OthersDoNotMatch()
    ensures forall i :: 3 <= i < |MockTrains| ==> !Matches(MockTrains[i], "delhi", "mumbai")
  {
    forall i | 3 <= i < |MockTrains|
      ensures !Matches(MockTrains[i], "delhi", "mumbai")
    {
      var t := MockTrains[i];
      if i == 3 || i == 4 || i == 9 || i == 10 {
        NotToMumbai(t);
      } else {
        NotFromDelhi(t);
      }
    }
  }

  lemma DelhiToMumbaiFilter()
    ensures FilterTrains(MockTrains, "delhi", "mumbai") == [MockTrains[0], MockTrains[1], MockTrains[2]]
  {
    var ts := MockTrains;
    DelhiToMumbaiMatches();
    OthersDoNotMatch();
    FilterSkips(ts, 3, "delhi", "mumbai");
    FilterStep(ts, 2, "delhi", "mumbai");
    FilterStep(ts, 1, "delhi", "mumbai");
    FilterStep(ts, 0, "delhi", "mumbai");
    assert ts[0..] == ts;
  }

  /** A query with both stations answers the filtered, dated table. */
  lemma SearchFound(trains: seq<Train>, from: string, to: string, date: string, today: string)
    requires from != "" && to != "" && date != ""
    ensures SearchIn(trains, SearchEvent(None, None, Some(Query(Some(from), Some(to), Some(date))), None), today)
            == Found(WithDate(FilterTrains(trains, from, to), date))
  {
  }

  /** Delhi to Mumbai finds the trains 1, 2 and 3, in that order, each
      with the query date. */
  lemma DelhiToMumbai()
    ensures var r := Search(SearchEvent(None, None, Some(Query(Some("delhi"), Some("mumbai"), Some("2025-03-01"))), None), "today");
            && r == Found(WithDate([MockTrains[0], MockTrains[1], MockTrains[2]], "2025-03-01"))
            && MockTrains[0].trainId == 1 && MockTrains[1].trainId == 2 && MockTrains[2].trainId == 3
  {
    SearchFound(MockTrains, "delhi", "mumbai", "2025-03-01", "today");
    DelhiToMumbaiFilter();
  }

  /** A suffix in which nothing matches filters to nothing. */
  lemma {:induction false} FilterSkips(ts: seq<Train>, n: nat, from: string, to: string)
    requires n <= |ts|
    requires forall i :: n <= i < |ts| ==> !Matches(ts[i], from, to)
    ensures FilterTrains(ts[n..], from, to) == []
    decreases |ts| - n
  {
    if n < |ts| {
      FilterSkips(ts, n + 1, from, to);
      assert ts[n..][1..] == ts[n + 1..];
    }
  }
}
