/** The sale records, the transfer objects and the response envelope of the
    sales API, with the pure functions that specify the repository's listings
    and its filter. Timestamps and dates are modelled as integers (ticks), so
    the inclusive comparisons of the filter stay exact; decimal amounts are
    integers, since they are only copied and compared. */
module Sales {

  datatype Option<T> = None | Some(value: T)

  /** A persisted sale (the `Sale` entity). */
  datatype Sale = Sale(
    id: int,
    amount: int,
    saleDate: int,
    representativeId: int,
    createdOn: int,
    updatedOn: int)

  /** The body of a create request (`CreateSaleDTO`). */
  datatype CreateSaleDto = CreateSaleDto(amount: int, saleDate: int, representativeId: int)

  /** The body of an update request (`UpdateSaleDTO`). */
  datatype UpdateSaleDto = UpdateSaleDto(amount: int, representativeId: int)

  /** The message tags of `ResponseMessages`. */
  datatype Message = Added | Deleted | Modified | Successful | NotFound | InvalidData | ExceptionMessage

  /** The optional payload of an envelope: one record, a list of records,
      or the update request echoed back. */
  datatype Payload = NoPayload | One(sale: Sale) | Many(sales: seq<Sale>) | Echo(update: UpdateSaleDto)

  /** The envelope built by `ResponseHelper.CreateResponse`. */
  datatype Response = Response(isSuccess: bool, isError: bool, message: Message, result: Payload)

  /** The envelope every operation returns when the store throws. */
  const Failure: Response := Response(false, true, ExceptionMessage, NoPayload)

  /** The envelope for an absent record or an empty result. */
  const NotFoundResponse: Response := Response(true, false, NotFound, NoPayload)

  /** The persisted `Sales` set, keyed by primary key. */
  type Table = map<int, Sale>

  /** Every record is stored under its own id. */
  ghost predicate Keyed(t: Table) {
    forall id :: id in t ==> t[id].id == id
  }

  /** `s` lists the records of `t`, each exactly once. */
  ghost predicate ListsExactly(s: seq<Sale>, t: Table) {
    |s| == |t| &&
    (forall i :: 0 <= i < |s| ==> s[i].id in t && t[s[i].id] == s[i]) &&
    (forall id :: id in t ==> t[id] in s)
  }

  /** Ids strictly increase along `s`, so no record is listed twice. */
  ghost predicate Ascending(s: seq<Sale>) {
    forall i, j :: 0 <= i < j < |s| ==> s[i].id < s[j].id
  }

  lemma {:induction false} MinExists(keys: set<int>)
    requires keys != {}
    ensures exists k :: k in keys && forall j :: j in keys ==> k <= j
  {
    var x := PickKey(keys);
    var rest := keys - {x};
    if rest == {} {
      assert keys == {x};
      assert forall j :: j in keys ==> x <= j;
    } else {
      MinExists(rest);
      var m :| m in rest && forall j :: j in rest ==> m <= j;
      assert forall j :: j in keys ==> j == x || j in rest;
      var least := if x < m then x else m;
      assert least in keys && forall j :: j in keys ==> least <= j;
    }
  }

  /** Some element of a non-empty set. */
  ghost function PickKey(keys: set<int>): (x: int)
    requires keys != {}
    ensures x in keys
  {
    assert (forall x :: x !in keys) ==> keys == {};
    var x :| x in keys; x
  }

  function MinKey(keys: set<int>): (k: int)
    requires keys != {}
    ensures k in keys && forall j :: j in keys ==> k <= j
  {
    MinExists(keys);
    var k :| k in keys && forall j :: j in keys ==> k <= j;
    k
  }

  /** Putting the least-id record before a listing of the others lists the
      whole table. */
  lemma ListingStep(t: Table, k: int, tail: seq<Sale>)
    requires Keyed(t) && k in t
    requires forall j :: j in t ==> k <= j
    requires ListsExactly(tail, t - {k}) && Ascending(tail)
    ensures ListsExactly([t[k]] + tail, t) && Ascending([t[k]] + tail)
  {
    var rest := t - {k};
    assert rest.Keys == t.Keys - {k};
    assert |rest| == |t| - 1;
    var s := [t[k]] + tail;
    assert forall i :: 0 < i < |s| ==> s[i] == tail[i - 1];
    StepMembers(t, k, tail, s);
    StepCovers(t, k, tail, s);
    StepAscending(t, k, tail, s);
  }

  lemma StepMembers(t: Table, k: int, tail: seq<Sale>, s: seq<Sale>)
    requires Keyed(t) && k in t
    requires forall i :: 0 <= i < |tail| ==> tail[i].id in t - {k} && (t - {k})[tail[i].id] == tail[i]
    requires s == [t[k]] + tail
    ensures forall i :: 0 <= i < |s| ==> s[i].id in t && t[s[i].id] == s[i]
  {
    forall i | 0 < i < |s|
      ensures s[i].id in t && t[s[i].id] == s[i]
    {
      assert s[i] == tail[i - 1];
    }
  }

  lemma StepCovers(t: Table, k: int, tail: seq<Sale>, s: seq<Sale>)
    requires k in t
    requires forall id :: id in t - {k} ==> (t - {k})[id] in tail
    requires s == [t[k]] + tail
    ensures forall id :: id in t ==> t[id] in s
  {
    forall id | id in t
      ensures t[id] in s
    {
      if id != k { assert id in t - {k}; }
    }
  }

  lemma StepAscending(t: Table, k: int, tail: seq<Sale>, s: seq<Sale>)
    requires k in t && t[k].id == k
    requires forall j :: j in t ==> k <= j
    requires forall i :: 0 <= i < |tail| ==> tail[i].id in t - {k}
    requires Ascending(tail)
    requires s == [t[k]] + tail
    ensures Ascending(s)
  {
    forall i, j | 0 <= i < j < |s|
      ensures s[i].id < s[j].id
    {
      assert s[j] == tail[j - 1];
      if i > 0 { assert s[i] == tail[i - 1]; }
    }
  }

  /** The list a query over `t` materialises (`ToListAsync`). The source
      fixes no order; the model lists by ascending id. */
  function Listing(t: Table): (s: seq<Sale>)
    requires Keyed(t)
    ensures ListsExactly(s, t)
    ensures Ascending(s)
    decreases |t|
  {
    if t == map[] then []
    else
      var k := MinKey(t.Keys);
      assert (t - {k}).Keys == t.Keys - {k};
      var tail := Listing(t - {k});
      ListingStep(t, k, tail);
      [t[k]] + tail
  }

  /** The three-way choice of `GetSalesByFiltersAsync`. */
  datatype FilterMode =
    | DateRange(start: int, end: int)
    | DateRangeOfRep(start: int, end: int, rep: int)
    | RepOnly(rep: int)
    | Invalid

  /** Both dates present: a date range, narrowed by the representative when
      that is positive; otherwise a positive representative alone; otherwise
      invalid input. */
  function Mode(startDate: Option<int>, endDate: Option<int>, representativeId: int): (m: FilterMode)
    ensures m == Invalid <==> (startDate.None? || endDate.None?) && representativeId <= 0
    ensures m.DateRange? <==> startDate.Some? && endDate.Some? && representativeId <= 0
    ensures m.RepOnly? ==> m.rep == representativeId && representativeId > 0
    ensures (m.DateRange? || m.DateRangeOfRep?) ==>
              startDate.Some? && endDate.Some? && m.start == startDate.value && m.end == endDate.value
    ensures m.DateRangeOfRep? <==> startDate.Some? && endDate.Some? && representativeId > 0
    ensures m.RepOnly? <==> (startDate.None? || endDate.None?) && representativeId > 0
    ensures m.DateRangeOfRep? ==> m.rep == representativeId > 0
  {
    if startDate.Some? && endDate.Some? then
      if representativeId <= 0 then DateRange(startDate.value, endDate.value)
      else DateRangeOfRep(startDate.value, endDate.value, representativeId)
    else if representativeId > 0 then RepOnly(representativeId)
    else Invalid
  }

  /** The `Where` condition of the chosen query: the inclusive date test in
      both range modes, the representative test in both representative
      modes, and nothing for invalid input. */
  predicate Matches(s: Sale, m: FilterMode): (r: bool)
    ensures r <==> m != Invalid &&
                   ((m.DateRange? || m.DateRangeOfRep?) ==> m.start <= s.saleDate <= m.end) &&
                   ((m.DateRangeOfRep? || m.RepOnly?) ==> s.representativeId == m.rep)
  {
    match m
    case DateRange(a, b) => a <= s.saleDate && s.saleDate <= b
    case DateRangeOfRep(a, b, r) => a <= s.saleDate && s.saleDate <= b && s.representativeId == r
    case RepOnly(r) => s.representativeId == r
    case Invalid => false
  }

  /** The records the filter selects: exactly those of the table that meet
      the chosen condition, each under its own id. */
  function Selected(t: Table, m: FilterMode): (sel: Table)
    ensures forall id :: id in sel <==> id in t && Matches(t[id], m)
    ensures forall id :: id in sel ==> sel[id] == t[id]
  {
    map id | id in t && Matches(t[id], m) :: t[id]
  }

  /** A record is listed in the filter's answer iff it is in the table and
      meets the chosen condition. */
  lemma ListedIffMatches(t: Table, m: FilterMode, s: Sale)
    requires Keyed(t)
    ensures s in Listing(Selected(t, m)) <==> s.id in t && t[s.id] == s && Matches(s, m)
  {
    var sel := Selected(t, m);
    var l := Listing(sel);
    if s in l {
      var i :| 0 <= i < |l| && l[i] == s;
      assert s.id in sel;
    }
    if s.id in t && t[s.id] == s && Matches(s, m) {
      assert s.id in sel;
      assert sel[s.id] in l;
    }
  }

  /** What a successful filter response lists, in the source's terms: with
      both dates, the records dated within [start, end], and of the given
      representative when it is positive; with a date missing and a positive
      representative, that representative's records, whatever single date
      was given. */
  lemma FilterListing(t: Table, startDate: Option<int>, endDate: Option<int>, rep: int, s: Sale)
    requires Keyed(t)
    requires Mode(startDate, endDate, rep) != Invalid
    ensures s in Listing(Selected(t, Mode(startDate, endDate, rep))) <==>
              s.id in t && t[s.id] == s &&
              (if startDate.Some? && endDate.Some? then
                 startDate.value <= s.saleDate <= endDate.value && (rep > 0 ==> s.representativeId == rep)
               else s.representativeId == rep)
  {
    ListedIffMatches(t, Mode(startDate, endDate, rep), s);
  }

  /** An inverted date range selects nothing, so the filter reports NotFound. */
  lemma InvertedRangeSelectsNothing(t: Table, start: int, end: int, rep: int)
    requires start > end
    ensures Selected(t, Mode(Some(start), Some(end), rep)) == map[]
  {
  }

  /** With a date missing, the other date plays no part in the choice. */
  lemma SingleDateIgnored(date: int, rep: int)
    ensures Mode(Some(date), None, rep) == Mode(None, None, rep)
    ensures Mode(None, Some(date), rep) == Mode(None, None, rep)
  {
  }
}
