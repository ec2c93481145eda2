/** URL records as the store holds them, and the pure operations the
    redirect handler performs on the store's collection (server.js:108-116). */
module UrlRecords {
  import opened Wrappers

  /** One `ShortUrl` document: the destination, its short code and its visit
      counter. The store-assigned `_id` plays no part in the handlers. */
  datatype Record = Record(full: string, short: string, clicks: nat)

  /** `ShortUrl.findOne({ short: code })`: the position of the first record,
      in the store's natural order, whose short code is `code`. */
  function FindFirst(rs: seq<Record>, code: string): (r: Option<nat>)
    ensures r.Some? ==> r.value < |rs| && rs[r.value].short == code
    ensures r.Some? ==> forall j :: 0 <= j < r.value ==> rs[j].short != code
    ensures r.None? <==> forall j :: 0 <= j < |rs| ==> rs[j].short != code
  {
    if rs == [] then None
    else if rs[0].short == code then Some(0)
    else match FindFirst(rs[1..], code)
      case None => None
      case Some(i) => Some(i + 1)
  }

  /** `shortUrl.clicks++` followed by `shortUrl.save()` on the record at `i`. */
  function Clicked(rs: seq<Record>, i: nat): (rs': seq<Record>)
    requires i < |rs|
    ensures |rs'| == |rs|
    ensures rs'[i].full == rs[i].full && rs'[i].short == rs[i].short
    ensures rs'[i].clicks == rs[i].clicks + 1
    ensures forall j :: 0 <= j < |rs| && j != i ==> rs'[j] == rs[j]
  {
    rs[i := rs[i].(clicks := rs[i].clicks + 1)]
  }

  /** The store after one request for `GET /code`. */
  function Visit(rs: seq<Record>, code: string): (rs': seq<Record>)
    ensures |rs'| == |rs| && ClicksGrow(rs, rs')
    ensures FindFirst(rs, code).None? ==> rs' == rs
    ensures FindFirst(rs, code).Some? ==>
      var i := FindFirst(rs, code).value;
      rs'[i].clicks == rs[i].clicks + 1 &&
      forall j :: 0 <= j < |rs| && j != i ==> rs'[j] == rs[j]
  {
    match FindFirst(rs, code)
    case None => rs
    case Some(i) => Clicked(rs, i)
  }

  /** The store after `n` sequential requests for `GET /code`. */
  function Visits(rs: seq<Record>, code: string, n: nat): seq<Record>
  {
    if n == 0 then rs else Visit(Visits(rs, code, n - 1), code)
  }

  /** The record invariants that hold across every handler: no record
      disappears or moves, `full` and `short` never change and `clicks` never
      decreases. */
  ghost predicate ClicksGrow(before: seq<Record>, after: seq<Record>)
  {
    |before| <= |after| &&
    forall i :: 0 <= i < |before| ==>
      after[i].full == before[i].full && after[i].short == before[i].short &&
      after[i].clicks >= before[i].clicks
  }

  /** Two stores that list the same short codes in the same order answer
      every `findOne` alike. */
  lemma {:induction false} FindFirstSameCodes(rs: seq<Record>, rs': seq<Record>, code: string)
    requires |rs| == |rs'|
    requires forall j :: 0 <= j < |rs| ==> rs[j].short == rs'[j].short
    ensures FindFirst(rs', code) == FindFirst(rs, code)
  {
    if rs != [] && rs[0].short != code {
      FindFirstSameCodes(rs[1..], rs'[1..], code);
    }
  }

  /** An unknown code leaves the store as it was; a known one adds exactly one
      click to the first matching record and changes nothing else. */
  lemma VisitEffect(rs: seq<Record>, code: string)
    ensures FindFirst(rs, code).None? ==> Visit(rs, code) == rs
    ensures FindFirst(rs, code).Some? ==>
      var i := FindFirst(rs, code).value;
      var rs' := Visit(rs, code);
      |rs'| == |rs| && rs'[i] == rs[i].(clicks := rs[i].clicks + 1) &&
      forall j :: 0 <= j < |rs| && j != i ==> rs'[j] == rs[j]
    ensures ClicksGrow(rs, Visit(rs, code))
  {
  }

  /** The store after `n` clicks on the record at `i` and no other change. */
  ghost predicate CountedBy(rs: seq<Record>, rs': seq<Record>, i: nat, n: nat)
  {
    |rs'| == |rs| && i < |rs| &&
    rs'[i] == rs[i].(clicks := rs[i].clicks + n) &&
    forall j :: 0 <= j < |rs| && j != i ==> rs'[j] == rs[j]
  }

  /** Counting clicks never changes which record a code resolves to. */
  lemma CountedKeepsMatch(rs: seq<Record>, rs': seq<Record>, code: string, i: nat, n: nat)
    requires CountedBy(rs, rs', i, n) && FindFirst(rs, code) == Some(i)
    ensures FindFirst(rs', code) == Some(i)
  {
    forall j | 0 <= j < |rs|
      ensures rs[j].short == rs'[j].short
    {
      if j != i {
        assert rs'[j] == rs[j];
      }
    }
    FindFirstSameCodes(rs, rs', code);
  }

  /** One more redirect through the code counts one more click on the same
      record. */
  lemma VisitCountsOnce(rs: seq<Record>, prev: seq<Record>, code: string, i: nat, n: nat)
    requires CountedBy(rs, prev, i, n) && FindFirst(rs, code) == Some(i)
    ensures CountedBy(rs, Visit(prev, code), i, n + 1)
  {
    CountedKeepsMatch(rs, prev, code, i, n);
    assert Visit(prev, code) == Clicked(prev, i);
  }

  /** No redirect yet: nothing counted. */
  lemma CountedByNone(rs: seq<Record>, i: nat)
    requires i < |rs|
    ensures CountedBy(rs, rs, i, 0)
  {
    assert rs[i].(clicks := rs[i].clicks + 0) == rs[i];
  }

  /** N sequential redirects through a known code raise that record's
      `clicks` by exactly N and touch nothing else. */
  lemma {:induction false} RepeatedVisits(rs: seq<Record>, code: string, i: nat, n: nat)
    requires FindFirst(rs, code) == Some(i)
    ensures CountedBy(rs, Visits(rs, code, n), i, n)
  {
    if n == 0 {
      CountedByNone(rs, i);
    } else {
      RepeatedVisits(rs, code, i, n - 1);
      VisitCountsOnce(rs, Visits(rs, code, n - 1), code, i, n - 1);
    }
  }

  /** N sequential requests for a code no record has leave the store as it was. */
  lemma {:induction false} RepeatedMisses(rs: seq<Record>, code: string, n: nat)
    requires FindFirst(rs, code).None?
    ensures Visits(rs, code, n) == rs
  {
    if n > 0 {
      RepeatedMisses(rs, code, n - 1);
    }
  }

  /** The record invariants compose: they hold between any two states of a
      run made of steps that keep them. */
  lemma ClicksGrowTransitive(a: seq<Record>, b: seq<Record>, c: seq<Record>)
    requires ClicksGrow(a, b) && ClicksGrow(b, c)
    ensures ClicksGrow(a, c)
  {
  }

  /** Over any run of redirects through one code, no record is lost or
      moved, `full` and `short` stay fixed and `clicks` never falls. */
  lemma {:induction false} VisitsGrow(rs: seq<Record>, code: string, n: nat)
    ensures ClicksGrow(rs, Visits(rs, code, n))
  {
    if n > 0 {
      VisitsGrow(rs, code, n - 1);
      var prev := Visits(rs, code, n - 1);
      ClicksGrowTransitive(rs, prev, Visit(prev, code));
    }
  }
}
