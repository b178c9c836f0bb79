/** The list views of the user interface: one table row per element of the
    list the server answered, and one row saying there are none when the
    list is empty. */
module Listings {
  import opened Wrappers
  import opened JsValues

  /** `list.forEach` building one row per element: the rows in list order,
      or the error of the first element whose row throws, which ends the
      loop. */
  function MapRows<R>(items: seq<Js>, rowOf: Js -> Result<R, Thrown>): (r: Result<seq<R>, Thrown>)
    ensures r.Success? <==> forall i :: 0 <= i < |items| ==> rowOf(items[i]).Success?
    ensures r.Success? ==> |r.value| == |items| &&
                           forall i :: 0 <= i < |items| ==> rowOf(items[i]) == Success(r.value[i])
    ensures r.Failure? ==> r.error == rowOf(items[FirstFailure(items, rowOf)]).error
  {
    if items == [] then Success([])
    else
      var head := rowOf(items[0]);
      if head.Failure? then Failure(head.error)
      else
        var tail := MapRows(items[1..], rowOf);
        if tail.Failure? then Failure(tail.error)
        else Success([head.value] + tail.value)
  }

  /** The position of the first element whose row throws. */
  function FirstFailure<R>(items: seq<Js>, rowOf: Js -> Result<R, Thrown>): (i: nat)
    requires exists k :: 0 <= k < |items| && rowOf(items[k]).Failure?
    ensures i < |items| && rowOf(items[i]).Failure?
    ensures forall j :: 0 <= j < i ==> rowOf(items[j]).Success?
  {
    if rowOf(items[0]).Failure? then 0
    else
      var k :| 0 <= k < |items| && rowOf(items[k]).Failure?;
      assert 0 <= k - 1 < |items[1..]| && rowOf(items[1..][k - 1]).Failure?;
      1 + FirstFailure(items[1..], rowOf)
  }

  /** A table body: the rows, or the single row carrying a message. */
  datatype TableBody<R> = Rows(rows: seq<R>) | EmptyRow(message: string)

  /** The list views of rules, threats and incident reports: `forEach` fills
      the body, which only a list has, and a list of length 0 then gets the
      one row carrying `message`. */
  function ListTable<R>(list: Js, rowOf: Js -> Result<R, Thrown>, message: string): (r: Result<TableBody<R>, Thrown>)
    ensures !list.Arr? ==> r == Failure(TypeError)
    ensures r == Success(EmptyRow(message)) <==> list.Arr? && list.items == []
    ensures r.Success? && r.value.Rows? ==>
              list.Arr? && |r.value.rows| == |list.items| > 0 &&
              forall i :: 0 <= i < |list.items| ==> rowOf(list.items[i]) == Success(r.value.rows[i])
    ensures list.Arr? && list.items != [] ==>
              (r.Success? <==> forall i :: 0 <= i < |list.items| ==> rowOf(list.items[i]).Success?)
  {
    if !list.Arr? then Failure(TypeError)
    else
      var rows := MapRows(list.items, rowOf);
      if rows.Failure? then Failure(rows.error)
      else if Length(list) == Num(0) then Success(EmptyRow(message))
      else Success(Rows(rows.value))
  }
}
