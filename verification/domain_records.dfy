/**
 * DNS records as the provider lists them, the scan that picks the record to
 * keep up to date (main.go, lines 111-121), and the provider's state after an
 * edit request that sets only the data field (main.go, lines 130-133).
 */
module DomainRecords {
  import opened Wrappers

  /** One provider-side record; `rtype` is the record type ("A", "AAAA", ...). */
  datatype Record = Record(id: int, name: string, rtype: string, data: string)

  const TypeA: string := "A"

  /** Go's zero value of a record, held by the scan before any match. */
  const NoRecord: Record := Record(0, "", "", "")

  /** The record is an "A" record with the configured name. */
  predicate Matches(r: Record, name: string)
  {
    r.name == name && r.rtype == TypeA
  }

  /** Index `i` holds a match and no later index does. */
  ghost predicate IsLastMatch(rs: seq<Record>, name: string, i: int)
  {
    && 0 <= i < |rs|
    && Matches(rs[i], name)
    && forall j :: i < j < |rs| ==> !Matches(rs[j], name)
  }

  /** No record of the list matches. */
  ghost predicate NoMatch(rs: seq<Record>, name: string)
  {
    forall i :: 0 <= i < |rs| ==> !Matches(rs[i], name)
  }

  /** At most one index of a list is its last match. */
  lemma LastMatchUnique(rs: seq<Record>, name: string, i: int, k: int)
    requires IsLastMatch(rs, name, i) && IsLastMatch(rs, name, k)
    ensures i == k
  {
  }

  /** The index of the record the reconciler selects: the last match in list order. */
  function LastMatch(rs: seq<Record>, name: string): (r: Option<nat>)
    ensures r.None? <==> NoMatch(rs, name)
    ensures r.Some? ==> IsLastMatch(rs, name, r.value)
    decreases |rs|
  {
    if |rs| == 0 then None
    else if Matches(rs[|rs| - 1], name) then Some(|rs| - 1)
    else LastMatch(rs[..|rs| - 1], name)
  }

  /**
   * The scan as the program performs it: front to back, each match
   * overwriting the one held so far.
   */
  method FindRecord(records: seq<Record>, name: string) returns (record: Record, found: bool)
    ensures found <==> !NoMatch(records, name)
    ensures found ==> exists i :: IsLastMatch(records, name, i) && records[i] == record
    ensures found ==> LastMatch(records, name).Some? && record == records[LastMatch(records, name).value]
  {
    record, found := NoRecord, false;
    for k := 0 to |records|
      invariant found <==> exists i :: 0 <= i < k && Matches(records[i], name)
      invariant found ==> exists i :: 0 <= i < k && records[i] == record && IsLastMatch(records[..k], name, i)
    {
      if Matches(records[k], name) {
        record, found := records[k], true;
        assert IsLastMatch(records[..k + 1], name, k);
      } else {
        if found {
          ghost var i :| 0 <= i < k && records[i] == record && IsLastMatch(records[..k], name, i);
          assert IsLastMatch(records[..k + 1], name, i);
        }
      }
    }
    assert records[..|records|] == records;
    if found {
      ghost var i :| IsLastMatch(records, name, i) && records[i] == record;
      LastMatchUnique(records, name, i, LastMatch(records, name).value);
    }
  }

  /**
   * The provider's record list once it accepts an edit that sets the data of
   * record `id`: only that record's data changes.
   */
  function ApplyEdit(rs: seq<Record>, id: int, data: string): (rs': seq<Record>)
    ensures |rs'| == |rs|
    ensures forall i :: 0 <= i < |rs| ==>
      rs'[i].id == rs[i].id && rs'[i].name == rs[i].name && rs'[i].rtype == rs[i].rtype
    ensures forall i :: 0 <= i < |rs| && rs[i].id == id ==> rs'[i].data == data
    ensures forall i :: 0 <= i < |rs| && rs[i].id != id ==> rs'[i] == rs[i]
  {
    seq(|rs|, i requires 0 <= i < |rs| => if rs[i].id == id then rs[i].(data := data) else rs[i])
  }

  /** An edit leaves the selected position, and the selected record's id, where they were. */
  lemma EditKeepsSelection(rs: seq<Record>, id: int, data: string, name: string)
    ensures LastMatch(ApplyEdit(rs, id, data), name) == LastMatch(rs, name)
  {
  }
}
