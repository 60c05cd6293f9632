/**
  The record fetcher: `get_inventory_data` walks the API's pages 1, 2, 3, ...
  and gathers their records, then numbers the records by position.

  The HTTP exchange is not modelled. The API is a finite sequence of
  responses, the one for page p at index p - 1; a response is either a
  failure (an HTTP error status, a network error, a body that is not JSON, or
  any other exception) or a JSON body whose `data` field is absent (`None`) or
  holds a list of records. When the sequence runs out the loop stops, as it
  does on a page without data.
*/
module Fetcher {
  import opened Wrappers
  import opened Table

  datatype Response = Failed | Page(data: Option<seq<Row>>)

  /** Records requested per page. */
  const PerPage: nat := 25

  /** The records a response contributes when the loop appends it. */
  function DataOf(r: Response): seq<Row>
  {
    match r
    case Page(Some(records)) => records
    case _ => []
  }

  /** A page that is appended and followed by a request for the next page. */
  predicate IsFull(r: Response, perPage: nat)
  {
    r.Page? && r.data.Some? && r.data.value != [] && |r.data.value| >= perPage
  }

  /** All the records the pagination loop gathers from `responses`. */
  function Accumulate(responses: seq<Response>, perPage: nat): seq<Row>
  {
    if responses == [] then []
    else DataOf(responses[0]) + (if IsFull(responses[0], perPage) then Accumulate(responses[1..], perPage) else [])
  }

  /** How many pages the loop appends and then moves past. */
  function FullPages(responses: seq<Response>, perPage: nat): (n: nat)
    ensures n <= |responses|
  {
    if responses != [] && IsFull(responses[0], perPage) then 1 + FullPages(responses[1..], perPage) else 0
  }

  /** The records of a run of responses, in page order. */
  function Concat(responses: seq<Response>): seq<Row>
  {
    if responses == [] then [] else DataOf(responses[0]) + Concat(responses[1..])
  }

  /**
    The pagination loop of `get_inventory_data`. It returns the gathered
    records and the page counter it stopped at.
  */
  method FetchPages(responses: seq<Response>, perPage: nat) returns (allData: seq<Row>, page: nat)
    ensures allData == Accumulate(responses, perPage)
    ensures page == 1 + FullPages(responses, perPage)
  {
    allData := [];
    page := 1;
    while true
      invariant 1 <= page <= |responses| + 1
      invariant allData + Accumulate(responses[page - 1..], perPage) == Accumulate(responses, perPage)
      invariant page - 1 + FullPages(responses[page - 1..], perPage) == FullPages(responses, perPage)
      decreases |responses| + 1 - page
    {
      if page - 1 == |responses| {
        // the API has no more pages: as a page without data
        assert responses[page - 1..] == [];
        break;
      }
      FullIff(responses[page - 1], perPage);
      // a failed request, an absent `data` and an empty `data` all stop the loop without appending
      var data := DataOf(responses[page - 1]);
      if data == [] {
        StopAt(responses, page - 1, perPage, allData);
        break;
      }
      ghost var before := allData;
      allData := allData + data;
      if |data| < perPage {
        StopAt(responses, page - 1, perPage, before);
        break;
      }
      MoveOn(responses, page - 1, perPage, before);
      page := page + 1;
    }
  }

  lemma FullIff(r: Response, perPage: nat)
    ensures IsFull(r, perPage) <==> DataOf(r) != [] && |DataOf(r)| >= perPage
  {
  }

  /** The loop stops at a page that is not full, having gathered everything. */
  lemma StopAt(responses: seq<Response>, k: nat, perPage: nat, gathered: seq<Row>)
    requires k < |responses| && !IsFull(responses[k], perPage)
    requires gathered + Accumulate(responses[k..], perPage) == Accumulate(responses, perPage)
    requires k + FullPages(responses[k..], perPage) == FullPages(responses, perPage)
    ensures gathered + DataOf(responses[k]) == Accumulate(responses, perPage)
    ensures k == FullPages(responses, perPage)
  {
    Unfold(responses, k, perPage);
    assert DataOf(responses[k]) + [] == DataOf(responses[k]);
  }

  /** After a full page the loop asks for the next one, the page's records appended. */
  lemma MoveOn(responses: seq<Response>, k: nat, perPage: nat, gathered: seq<Row>)
    requires k < |responses| && IsFull(responses[k], perPage)
    requires gathered + Accumulate(responses[k..], perPage) == Accumulate(responses, perPage)
    requires k + FullPages(responses[k..], perPage) == FullPages(responses, perPage)
    ensures (gathered + DataOf(responses[k])) + Accumulate(responses[k + 1..], perPage) == Accumulate(responses, perPage)
    ensures k + 1 + FullPages(responses[k + 1..], perPage) == FullPages(responses, perPage)
  {
    Unfold(responses, k, perPage);
    var next := Accumulate(responses[k + 1..], perPage);
    assert gathered + (DataOf(responses[k]) + next) == (gathered + DataOf(responses[k])) + next;
  }

  /** The responses from index k on: response k, then the rest when it is full. */
  lemma Unfold(responses: seq<Response>, k: nat, perPage: nat)
    requires k < |responses|
    ensures Accumulate(responses[k..], perPage) ==
              DataOf(responses[k]) + (if IsFull(responses[k], perPage) then Accumulate(responses[k + 1..], perPage) else [])
    ensures FullPages(responses[k..], perPage) ==
              if IsFull(responses[k], perPage) then 1 + FullPages(responses[k + 1..], perPage) else 0
  {
    assert responses[k..][1..] == responses[k + 1..];
  }

  /** Every record with `unique_id` set to its position. */
  function WithIds(records: seq<Row>): (rows: seq<Row>)
    ensures |rows| == |records|
    ensures forall i :: 0 <= i < |rows| ==> Get(rows[i], UniqueId) == Num(i)
    ensures forall i :: 0 <= i < |rows| ==> rows[i].Keys == records[i].Keys + {UniqueId}
    ensures forall i, c :: 0 <= i < |rows| && c != UniqueId ==> Get(rows[i], c) == Get(records[i], c)
  {
    seq(|records|, i requires 0 <= i < |records| => records[i][UniqueId := Num(i)])
  }

  /** `json_normalize(all_data)` with the `unique_id` column added. */
  function ToFrame(records: seq<Row>): Frame
  {
    Frame(KeysOf(records) + {UniqueId}, WithIds(records))
  }

  /**
    `get_inventory_data`: fetch every page, then either stop with the
    "no data" exit or give the records as a frame numbered by position.
  */
  method GetInventoryData(responses: seq<Response>) returns (r: Result<Frame>)
    ensures Accumulate(responses, PerPage) == [] ==> r == Err(NoData)
    ensures Accumulate(responses, PerPage) != [] ==> r == Ok(ToFrame(Accumulate(responses, PerPage)))
  {
    var allData, page := FetchPages(responses, PerPage);
    if allData == [] {
      return Err(NoData);
    }
    return Ok(ToFrame(allData));
  }

  /**
    What the loop gathers: the records of the first n pages, each of which is
    full, and then the records of page n + 1 when it is short; the page
    counter ends at n + 1.
  */
  lemma {:induction false} AccumulateShape(responses: seq<Response>, perPage: nat)
    ensures var n := FullPages(responses, perPage);
      && (forall i :: 0 <= i < n ==> IsFull(responses[i], perPage))
      && (n < |responses| ==> !IsFull(responses[n], perPage))
      && Accumulate(responses, perPage)
         == Concat(responses[..n]) + (if n < |responses| then DataOf(responses[n]) else [])
  {
    if responses != [] && IsFull(responses[0], perPage) {
      var n := FullPages(responses, perPage);
      AccumulateShape(responses[1..], perPage);
      assert responses[..n][1..] == responses[1..][..n - 1];
      forall i | 0 <= i < n ensures IsFull(responses[i], perPage) {
        if i > 0 { assert responses[i] == responses[1..][i - 1]; }
      }
    }
  }

  /** The number of full pages in front of the first page that is not full. */
  lemma FullPagesAt(responses: seq<Response>, perPage: nat, j: nat)
    requires j < |responses|
    requires forall i :: 0 <= i < j ==> IsFull(responses[i], perPage)
    requires !IsFull(responses[j], perPage)
    ensures FullPages(responses, perPage) == j
  {
    AccumulateShape(responses, perPage);
  }

  /**
    A failed request, a body without `data` or an empty `data` list ends the
    loop with nothing appended: the records of the full pages before it are kept.
  */
  lemma StopWithoutAppending(responses: seq<Response>, perPage: nat, j: nat)
    requires j < |responses|
    requires forall i :: 0 <= i < j ==> IsFull(responses[i], perPage)
    requires responses[j] == Failed || responses[j] == Page(None) || responses[j] == Page(Some([]))
    ensures Accumulate(responses, perPage) == Concat(responses[..j])
  {
    FullPagesAt(responses, perPage, j);
    AccumulateShape(responses, perPage);
  }

  /** A page shorter than `perPage` is appended and then ends the loop. */
  lemma ShortPageIsLast(responses: seq<Response>, perPage: nat, j: nat)
    requires j < |responses|
    requires forall i :: 0 <= i < j ==> IsFull(responses[i], perPage)
    requires responses[j].Page? && responses[j].data.Some?
    requires 0 < |responses[j].data.value| < perPage
    ensures Accumulate(responses, perPage) == Concat(responses[..j]) + responses[j].data.value
  {
    FullPagesAt(responses, perPage, j);
    AccumulateShape(responses, perPage);
  }

  /** Two pages of 25 and 10 records: all 35 are gathered and nothing after them is asked for. */
  lemma TwoPages(first: seq<Row>, second: seq<Row>, later: seq<Response>)
    requires |first| == PerPage && |second| == 10
    ensures Accumulate([Page(Some(first)), Page(Some(second))] + later, PerPage) == first + second
  {
  }

  /** After fetching, record i has `unique_id` i: the ids are 0 .. n-1, each once. */
  lemma FetchedIds(records: seq<Row>, i: nat, j: nat)
    requires i < |records| && j < |records| && i != j
    ensures var rows := ToFrame(records).rows;
      Get(rows[i], UniqueId) == Num(i) && Get(rows[i], UniqueId) != Get(rows[j], UniqueId)
  {
  }
}
