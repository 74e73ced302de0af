/** The rows of the operations page (main.py, `operations_page`): for every
    listed operation name, its status from the Web Risk API and the URL and
    payload stored with it, or an error row when anything on the way fails.
    The status request and the timestamp formatting are oracles. */
module OperationsPage {
  import opened Wrappers
  import opened JsonValues
  import opened DocIds
  import opened Store

  /** How a row shows the stored payload: the JSON value (pretty-printed by
      `json.dumps(..., indent=2)`), or `ERROR: <exception>` on an error row. */
  datatype PayloadText = Pretty(json: Json) | ErrorText(text: string)

  /** One entry of `ops_out`. */
  datatype Row = Row(time: string, url: string, payload: PayloadText, state: Json, stateClass: string)

  /** The exception text of a response that does not have the expected
      shape (a body or `metadata` that is not an object, a truthy
      `createTime` that is not a string). */
  const Malformed: string := "malformed operation"

  /** The CSS class of a state: "success" for SUCCEEDED, "running" for
      RUNNING, "closed" for anything else. */
  function StateClass(state: Json): (c: string)
    ensures c == "success" <==> state == Str("SUCCEEDED")
    ensures c == "running" <==> state == Str("RUNNING")
    ensures c == "closed" <==> state != Str("SUCCEEDED") && state != Str("RUNNING")
  {
    if state == Str("SUCCEEDED") then "success"
    else if state == Str("RUNNING") then "running"
    else "closed"
  }

  /** The row written for a name whose processing raised `exc`. */
  function ErrorRow(name: string, exc: string): Row {
    Row("-", name, ErrorText("ERROR: " + exc), Str("ERROR"), "closed")
  }

  /** `data.get("metadata", {})` of a response object. */
  function Metadata(data: Json): Json
    requires data.Obj?
  {
    Get(data.fields, "metadata").GetOr(Obj([]))
  }

  /** The time column and state read from a Web Risk operation: the
      `metadata` object (empty when absent), its `createTime` formatted when
      truthy and "-" otherwise, its `state` or "UNKNOWN". */
  function Status(data: Json, formatTime: string -> Result<string, string>): (r: Result<(string, Json), string>)
    ensures !data.Obj? || !Metadata(data).Obj? ==> r == Failure(Malformed)
    ensures data.Obj? && Metadata(data).Obj? ==>
              var meta := Metadata(data).fields;
              var stamp := Get(meta, "createTime");
              var state := Get(meta, "state").GetOr(Str("UNKNOWN"));
              && (r.Success? ==> r.value.1 == state)
              && (stamp.None? || !Truthy(stamp.value) ==> r == Success(("-", state)))
              && (stamp.Some? && Truthy(stamp.value) && !stamp.value.Str? ==> r == Failure(Malformed))
              && (stamp.Some? && Truthy(stamp.value) && stamp.value.Str? ==>
                    && (r.Success? <==> formatTime(stamp.value.s).Success?)
                    && (r.Success? ==> r.value.0 == formatTime(stamp.value.s).value)
                    && (r.Failure? ==> r.error == formatTime(stamp.value.s).error))
  {
    match data
    case Obj(fields) =>
      var meta := Metadata(data);
      if !meta.Obj? then Failure(Malformed)
      else
        var stamp := Get(meta.fields, "createTime");
        var time :=
          if stamp.None? || !Truthy(stamp.value) then Success("-")
          else if stamp.value.Str? then formatTime(stamp.value.s)
          else Failure(Malformed);
        if time.Failure? then Failure(time.error)
        else Success((time.value, Get(meta.fields, "state").GetOr(Str("UNKNOWN"))))
    case _ => Failure(Malformed)
  }

  /** An operation whose metadata carries a creation time and a state is
      shown with that time, formatted, and that state. */
  lemma StatusOfOperation(fields: seq<(string, Json)>, meta: seq<(string, Json)>, stamp: string, state: Json,
                          formatTime: string -> Result<string, string>)
    requires Get(fields, "metadata") == Some(Obj(meta))
    requires Get(meta, "createTime") == Some(Str(stamp)) && stamp != ""
    requires Get(meta, "state") == Some(state)
    requires formatTime(stamp).Success?
    ensures Status(Obj(fields), formatTime) == Success((formatTime(stamp).value, state))
  {
    assert Metadata(Obj(fields)) == Obj(meta);
    assert Truthy(Str(stamp));
  }

  /** The row for one listed name: none for an empty name (`if not name:
      continue`); an error row when the status request or reading its
      result fails; otherwise the status, with the URL and payload of the
      document stored under `_doc_id(name)` ("(unknown)" and `{}` when that
      document or field is missing). */
  function RowFor(docs: map<string, Doc>, sha1: string -> Digest, name: string,
                  fetch: string -> Result<Json, string>,
                  formatTime: string -> Result<string, string>): (r: Option<Row>)
    ensures r.None? <==> name == ""
    ensures name != "" && fetch(name).Failure? ==> r == Some(ErrorRow(name, fetch(name).error))
    ensures r.Some? && r.value.payload.ErrorText? ==> r.value.url == name && r.value.state == Str("ERROR")
    ensures r.Some? ==> r.value.stateClass == StateClass(r.value.state)
    ensures name != "" && fetch(name).Success? && Status(fetch(name).value, formatTime).Failure? ==>
              r == Some(ErrorRow(name, Status(fetch(name).value, formatTime).error))
    ensures name != "" && fetch(name).Success? && Status(fetch(name).value, formatTime).Success? ==>
              && r.Some? && r.value.payload.Pretty?
              && (r.value.time, r.value.state) == Status(fetch(name).value, formatTime).value
    ensures r.Some? && r.value.payload.Pretty? && DocId(sha1, name) in docs ==>
              var doc := docs[DocId(sha1, name)];
              r.value.url == doc.url.GetOr("(unknown)") && r.value.payload == Pretty(doc.payload.GetOr(Obj([])))
    ensures r.Some? && r.value.payload.Pretty? && DocId(sha1, name) !in docs ==>
              r.value.url == "(unknown)" && r.value.payload == Pretty(Obj([]))
  {
    if name == "" then None
    else
      var response := fetch(name);
      if response.Failure? then Some(ErrorRow(name, response.error))
      else
        var key := DocId(sha1, name);
        var doc := if key in docs then docs[key] else Doc(None, None, None, 0);
        var status := Status(response.value, formatTime);
        if status.Failure? then Some(ErrorRow(name, status.error))
        else
          var (time, state) := status.value;
          Some(Row(time, doc.url.GetOr("(unknown)"), Pretty(doc.payload.GetOr(Obj([]))), state, StateClass(state)))
  }

  /** The option as a sequence of at most one row. */
  function Rows(r: Option<Row>): seq<Row> {
    if r.Some? then [r.value] else []
  }

  /** The row function of the page: `RowFor` with the store and the oracles
      fixed. */
  function PageRow(docs: map<string, Doc>, sha1: string -> Digest,
                   fetch: string -> Result<Json, string>,
                   formatTime: string -> Result<string, string>): string -> Option<Row>
  {
    name => RowFor(docs, sha1, name, fetch, formatTime)
  }

  /** `ops_out` for a sequence of listed names, `row` giving each name's
      row (or none). */
  function RowsOf(names: seq<string>, row: string -> Option<Row>): (rows: seq<Row>)
    ensures |rows| <= |names|
  {
    if names == [] then []
    else RowsOf(names[..|names| - 1], row) + Rows(row(names[|names| - 1]))
  }

  /** The rows of a concatenation are the rows of its parts, in order: each
      name's row depends on that name alone. */
  lemma {:induction false} RowsOfAppend(xs: seq<string>, ys: seq<string>, row: string -> Option<Row>)
    ensures RowsOf(xs + ys, row) == RowsOf(xs, row) + RowsOf(ys, row)
    decreases |ys|
  {
    if ys == [] {
      assert xs + ys == xs;
    } else {
      var init := ys[..|ys| - 1];
      assert (xs + ys)[..|xs + ys| - 1] == xs + init;
      assert (xs + ys)[|xs + ys| - 1] == ys[|ys| - 1];
      RowsOfAppend(xs, init, row);
    }
  }

  /** The loop of `operations_page` that fills `ops_out`. */
  method BuildRows(docs: map<string, Doc>, sha1: string -> Digest, names: seq<string>,
                   fetch: string -> Result<Json, string>,
                   formatTime: string -> Result<string, string>)
    returns (rows: seq<Row>)
    ensures rows == RowsOf(names, PageRow(docs, sha1, fetch, formatTime))
  {
    rows := [];
    for i := 0 to |names|
      invariant rows == RowsOf(names[..i], PageRow(docs, sha1, fetch, formatTime))
    {
      assert names[..i + 1][..i] == names[..i];
      var row := RowFor(docs, sha1, names[i], fetch, formatTime);
      if row.Some? {
        rows := rows + [row.value];
      }
    }
    assert names[..|names|] == names;
  }

  /** When every name has a row, there are as many rows as names. */
  lemma {:induction false} RowCount(names: seq<string>, row: string -> Option<Row>)
    requires forall j :: 0 <= j < |names| ==> row(names[j]).Some?
    ensures |RowsOf(names, row)| == |names|
  {
    if names != [] {
      RowCount(names[..|names| - 1], row);
      assert row(names[|names| - 1]).Some?;
    }
  }

  /** When every name has a row, the row at position `i` is the row of the
      `i`-th name. */
  lemma {:induction false} RowAt(names: seq<string>, row: string -> Option<Row>, i: int)
    requires forall j :: 0 <= j < |names| ==> row(names[j]).Some?
    requires 0 <= i < |names|
    ensures |RowsOf(names, row)| == |names|
    ensures Some(RowsOf(names, row)[i]) == row(names[i])
    decreases |names|
  {
    var init := names[..|names| - 1];
    RowCount(names, row);
    RowCount(init, row);
    var last := row(names[|names| - 1]);
    assert last.Some?;
    assert RowsOf(names, row) == RowsOf(init, row) + [last.value];
    if i < |init| {
      RowAt(init, row, i);
      assert names[i] == init[i];
    }
  }

  /** With no empty name among them (as `list_operations` never returns
      one for a stored operation), every name gets exactly one row, in
      listing order. */
  lemma OneRowPerName(docs: map<string, Doc>, sha1: string -> Digest, names: seq<string>,
                      fetch: string -> Result<Json, string>,
                      formatTime: string -> Result<string, string>)
    requires forall i :: 0 <= i < |names| ==> names[i] != ""
    ensures |RowsOf(names, PageRow(docs, sha1, fetch, formatTime))| == |names|
    ensures forall i :: 0 <= i < |names| ==>
              Some(RowsOf(names, PageRow(docs, sha1, fetch, formatTime))[i])
              == RowFor(docs, sha1, names[i], fetch, formatTime)
  {
    var row := PageRow(docs, sha1, fetch, formatTime);
    forall j | 0 <= j < |names| ensures row(names[j]).Some? {
      assert names[j] != "";
    }
    RowCount(names, row);
    forall i | 0 <= i < |names|
      ensures Some(RowsOf(names, row)[i]) == RowFor(docs, sha1, names[i], fetch, formatTime)
    {
      RowAt(names, row, i);
    }
  }

  /** A failure for one operation turns only its own row into an error row;
      the rows of every other name are the rows they would have had anyway. */
  lemma ErrorIsolated(docs: map<string, Doc>, sha1: string -> Digest,
                      before: seq<string>, name: string, after: seq<string>,
                      fetch: string -> Result<Json, string>,
                      formatTime: string -> Result<string, string>)
    requires name != "" && fetch(name).Failure?
    ensures var row := PageRow(docs, sha1, fetch, formatTime);
            RowsOf(before + [name] + after, row)
            == RowsOf(before, row) + [ErrorRow(name, fetch(name).error)] + RowsOf(after, row)
  {
    var row := PageRow(docs, sha1, fetch, formatTime);
    RowsOfAppend(before + [name], after, row);
    RowsOfAppend(before, [name], row);
    assert RowsOf([name], row) == [ErrorRow(name, fetch(name).error)] by {
      assert [name][..0] == [];
    }
  }

  /** An operation saved by `submit` is shown with the URL and payload it
      was saved with, once its status can be read. */
  lemma SavedOperationShown(docs: map<string, Doc>, sha1: string -> Digest, name: string,
                            url: string, payload: Json, stamp: int,
                            fetch: string -> Result<Json, string>,
                            formatTime: string -> Result<string, string>)
    requires name != "" && fetch(name).Success? && Status(fetch(name).value, formatTime).Success?
    ensures var row := RowFor(Upsert(docs, DocId(sha1, name), name, url, payload, stamp), sha1, name, fetch, formatTime);
            && row.Some? && row.value.url == url && row.value.payload == Pretty(payload)
            && (row.value.time, row.value.state) == Status(fetch(name).value, formatTime).value
  {
  }
}
