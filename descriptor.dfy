/**
 * Splitting the `x-oss-process` descriptor into operations: every
 * "image/" is removed, the rest is split on '/' into segments and each
 * segment on ',' into an operation name and its option tokens. `info`
 * operations set a flag, the last `format` operation is held aside, and all
 * other operations are kept in order for sequential dispatch.
 */
module Descriptor {
  import opened Common
  import opened GoStrings

  /** One step of the descriptor: its name and its raw `key_value` tokens. */
  datatype Operation = Operation(name: string, opt: seq<string>)

  /** The namespace text removed wherever it occurs in the descriptor. */
  const ImagePrefix: string := "image/"

  /** The '/'-separated segments of a descriptor. */
  function Segments(processOpt: string): (segs: seq<string>)
    ensures |segs| >= 1
    ensures forall i :: 0 <= i < |segs| ==> '/' !in segs[i]
  {
    Split(RemoveAll(processOpt, ImagePrefix), '/')
  }

  /** The text form of an operation: its name and tokens joined by ','. */
  function Serialize(op: Operation): string {
    Join([op.name] + op.opt, ',')
  }

  /**
   * A segment's first ','-separated piece is the operation name and the
   * remaining pieces are its tokens; nothing of the segment is lost.
   */
  function ParseSegment(seg: string): (op: Operation)
    ensures ',' !in op.name
    ensures forall i :: 0 <= i < |op.opt| ==> ',' !in op.opt[i]
    ensures Serialize(op) == seg
  {
    var parts := Split(seg, ',');
    JoinSplit(seg, ',');
    assert [parts[0]] + parts[1..] == parts;
    Operation(parts[0], parts[1..])
  }

  /** Parsing gives back any operation whose name and tokens hold no ','. */
  lemma ParseSerialize(op: Operation)
    requires ',' !in op.name
    requires forall i :: 0 <= i < |op.opt| ==> ',' !in op.opt[i]
    ensures ParseSegment(Serialize(op)) == op
  {
    var parts := [op.name] + op.opt;
    assert forall i :: 0 <= i < |parts| ==> ',' !in parts[i] by {
      forall i | 0 <= i < |parts| ensures ',' !in parts[i] {
        if i > 0 { assert parts[i] == op.opt[i - 1]; }
      }
    }
    SplitJoin(parts, ',');
    assert parts[1..] == op.opt;
  }

  /** Every segment parsed, in order. */
  function ParseAll(segs: seq<string>): (ops: seq<Operation>)
    ensures |ops| == |segs|
    ensures forall i :: 0 <= i < |segs| ==> ops[i] == ParseSegment(segs[i])
  {
    if |segs| == 0 then [] else ParseAll(segs[..|segs| - 1]) + [ParseSegment(segs[|segs| - 1])]
  }

  /** `info` and `format` are not dispatched in sequence. */
  predicate IsSpecial(name: string) {
    name == "info" || name == "format"
  }

  /** The operations dispatched in sequence: every one that is not special, in order. */
  function Dispatchable(ops: seq<Operation>): (r: seq<Operation>)
    ensures |r| <= |ops|
    ensures forall k :: 0 <= k < |r| ==> !IsSpecial(r[k].name)
  {
    if |ops| == 0 then []
    else
      var last := ops[|ops| - 1];
      var front := Dispatchable(ops[..|ops| - 1]);
      if IsSpecial(last.name) then front else front + [last]
  }

  /** The `format` operation held aside: the last one, if any. */
  function LastFormat(ops: seq<Operation>): (r: Option<Operation>)
    ensures r.Some? ==> r.value.name == "format"
  {
    if |ops| == 0 then None
    else if ops[|ops| - 1].name == "format" then Some(ops[|ops| - 1])
    else LastFormat(ops[..|ops| - 1])
  }

  /**
   * The held-aside operation is absent exactly when no operation is named
   * `format`, and otherwise it is the one at the last such position.
   */
  lemma {:induction false} LastFormatIsLast(ops: seq<Operation>)
    ensures LastFormat(ops).None? <==> forall i :: 0 <= i < |ops| ==> ops[i].name != "format"
    ensures LastFormat(ops).Some? ==>
      exists i :: 0 <= i < |ops| && ops[i] == LastFormat(ops).value &&
        forall j :: i < j < |ops| ==> ops[j].name != "format"
  {
    if |ops| > 0 {
      var n := |ops| - 1;
      var front := ops[..n];
      LastFormatIsLast(front);
      assert forall i :: 0 <= i < n ==> front[i] == ops[i];
      if ops[n].name != "format" && LastFormat(front).Some? {
        var i :| 0 <= i < n && front[i] == LastFormat(front).value &&
          forall j :: i < j < n ==> front[j].name != "format";
        assert ops[i] == LastFormat(ops).value;
      }
    }
  }

  /** Some operation is named `info`. */
  predicate HasInfo(ops: seq<Operation>) {
    exists i :: 0 <= i < |ops| && ops[i].name == "info"
  }

  /**
   * The splitting loop of the request handler: the dispatched operations,
   * the held-aside `format` operation and the `info` flag.
   */
  method CollectOperations(processOpt: string)
    returns (operations: seq<Operation>, formatOperation: Option<Operation>, isInfo: bool)
    ensures operations == Dispatchable(ParseAll(Segments(processOpt)))
    ensures formatOperation == LastFormat(ParseAll(Segments(processOpt)))
    ensures isInfo == HasInfo(ParseAll(Segments(processOpt)))
  {
    var opts := Split(RemoveAll(processOpt, ImagePrefix), '/');
    operations, formatOperation, isInfo := [], None, false;
    for i := 0 to |opts|
      invariant operations == Dispatchable(ParseAll(opts[..i]))
      invariant formatOperation == LastFormat(ParseAll(opts[..i]))
      invariant isInfo == HasInfo(ParseAll(opts[..i]))
    {
      var op := ParseSegment(opts[i]);
      ParseAllExtend(opts, i);
      SplitLast(ParseAll(opts[..i + 1]), ParseAll(opts[..i]), op);
      if op.name == "info" {
        isInfo := true;
      } else if op.name == "format" {
        formatOperation := Some(op);
      } else {
        operations := operations + [op];
      }
    }
    assert opts[..|opts|] == opts;
  }

  /**
   * Splitting never yields nothing: the descriptor has at least one
   * segment, and that segment is an `info`, a `format` or a dispatched
   * operation. The handler's "no operations and no format" branch is
   * therefore reached only after the `info` answer has been given.
   */
  lemma SomethingCollected(processOpt: string)
    ensures var ops := ParseAll(Segments(processOpt));
      HasInfo(ops) || |Dispatchable(ops)| > 0 || LastFormat(ops).Some?
  {
    var ops := ParseAll(Segments(processOpt));
    if ops[0].name == "format" {
      LastFormatIsLast(ops);
    } else if ops[0].name != "info" {
      var idx := DispatchableKeepsOrder(ops);
      assert 0 in idx;
    }
  }

  /** Parsing one more segment appends its operation. */
  lemma ParseAllExtend(segs: seq<string>, i: nat)
    requires i < |segs|
    ensures ParseAll(segs[..i + 1]) == ParseAll(segs[..i]) + [ParseSegment(segs[i])]
  {
    assert segs[..i + 1][..i] == segs[..i];
  }

  /** The three views of a list of operations, extended by one more. */
  lemma SplitLast(ops: seq<Operation>, front: seq<Operation>, op: Operation)
    requires ops == front + [op]
    ensures Dispatchable(ops) == if IsSpecial(op.name) then Dispatchable(front) else Dispatchable(front) + [op]
    ensures LastFormat(ops) == if op.name == "format" then Some(op) else LastFormat(front)
    ensures HasInfo(ops) == (HasInfo(front) || op.name == "info")
  {
    assert ops[..|ops| - 1] == front;
    if HasInfo(front) {
      var i :| 0 <= i < |front| && front[i].name == "info";
      assert ops[i] == front[i];
    }
    if HasInfo(ops) && op.name != "info" {
      var i :| 0 <= i < |ops| && ops[i].name == "info";
      assert i < |front| && front[i] == ops[i];
    }
    assert ops[|ops| - 1] == op;
  }

  /**
   * Dispatch keeps relative order: the dispatched operations are exactly
   * the non-special ones, taken at strictly increasing positions.
   */
  lemma {:induction false} DispatchableKeepsOrder(ops: seq<Operation>) returns (idx: seq<nat>)
    ensures |idx| == |Dispatchable(ops)|
    ensures forall k :: 0 <= k < |idx| ==> idx[k] < |ops| && ops[idx[k]] == Dispatchable(ops)[k]
    ensures forall k, l :: 0 <= k < l < |idx| ==> idx[k] < idx[l]
    ensures forall i :: 0 <= i < |ops| && !IsSpecial(ops[i].name) ==> i in idx
  {
    if |ops| == 0 {
      idx := [];
    } else {
      var n := |ops| - 1;
      var front := ops[..n];
      var pre := DispatchableKeepsOrder(front);
      if IsSpecial(ops[n].name) {
        KeepsOrderSkip(ops, pre);
        idx := pre;
      } else {
        KeepsOrderTake(ops, pre);
        idx := pre + [n];
      }
    }
  }

  /** The inductive step of DispatchableKeepsOrder when the last operation is held aside. */
  lemma KeepsOrderSkip(ops: seq<Operation>, pre: seq<nat>)
    requires |ops| > 0 && IsSpecial(ops[|ops| - 1].name)
    requires var front := ops[..|ops| - 1];
      && |pre| == |Dispatchable(front)|
      && (forall k :: 0 <= k < |pre| ==> pre[k] < |front| && front[pre[k]] == Dispatchable(front)[k])
      && (forall i :: 0 <= i < |front| && !IsSpecial(front[i].name) ==> i in pre)
    ensures |pre| == |Dispatchable(ops)|
    ensures forall k :: 0 <= k < |pre| ==> pre[k] < |ops| && ops[pre[k]] == Dispatchable(ops)[k]
    ensures forall i :: 0 <= i < |ops| && !IsSpecial(ops[i].name) ==> i in pre
  {
    var n := |ops| - 1;
    var front := ops[..n];
    assert Dispatchable(ops) == Dispatchable(front);
    forall k | 0 <= k < |pre|
      ensures pre[k] < |ops| && ops[pre[k]] == Dispatchable(ops)[k]
    {
      assert front[pre[k]] == ops[pre[k]];
    }
    forall i | 0 <= i < |ops| && !IsSpecial(ops[i].name)
      ensures i in pre
    {
      assert i < n && front[i] == ops[i];
    }
  }

  /** The inductive step of DispatchableKeepsOrder when the last operation is dispatched. */
  lemma KeepsOrderTake(ops: seq<Operation>, pre: seq<nat>)
    requires |ops| > 0 && !IsSpecial(ops[|ops| - 1].name)
    requires var front := ops[..|ops| - 1];
      && |pre| == |Dispatchable(front)|
      && (forall k :: 0 <= k < |pre| ==> pre[k] < |front| && front[pre[k]] == Dispatchable(front)[k])
      && (forall k, l :: 0 <= k < l < |pre| ==> pre[k] < pre[l])
      && (forall i :: 0 <= i < |front| && !IsSpecial(front[i].name) ==> i in pre)
    ensures var idx := pre + [|ops| - 1];
      && |idx| == |Dispatchable(ops)|
      && (forall k :: 0 <= k < |idx| ==> idx[k] < |ops| && ops[idx[k]] == Dispatchable(ops)[k])
      && (forall k, l :: 0 <= k < l < |idx| ==> idx[k] < idx[l])
      && (forall i :: 0 <= i < |ops| && !IsSpecial(ops[i].name) ==> i in idx)
  {
    var n := |ops| - 1;
    var front := ops[..n];
    var d := Dispatchable(front);
    var idx := pre + [n];
    assert Dispatchable(ops) == d + [ops[n]];
    forall k | 0 <= k < |idx|
      ensures idx[k] < |ops| && ops[idx[k]] == Dispatchable(ops)[k]
    {
      if k < |pre| {
        assert idx[k] == pre[k] && Dispatchable(ops)[k] == d[k];
        assert front[pre[k]] == ops[pre[k]];
      } else {
        assert idx[k] == n && Dispatchable(ops)[k] == ops[n];
      }
    }
    forall k, l | 0 <= k < l < |idx|
      ensures idx[k] < idx[l]
    {
      if l < |pre| {
        assert idx[k] == pre[k] && idx[l] == pre[l];
      } else {
        assert idx[k] == pre[k] && pre[k] < |front|;
      }
    }
    forall i | 0 <= i < |ops| && !IsSpecial(ops[i].name)
      ensures i in idx
    {
      if i < n {
        assert front[i] == ops[i];
        var j :| 0 <= j < |pre| && pre[j] == i;
        assert idx[j] == i;
      } else {
        assert idx[|pre|] == n;
      }
    }
  }

  /** The segments whose operation is not special, in order. */
  function NonSpecialSegments(segs: seq<string>): seq<string> {
    if |segs| == 0 then []
    else
      var front := NonSpecialSegments(segs[..|segs| - 1]);
      if IsSpecial(ParseSegment(segs[|segs| - 1]).name) then front else front + [segs[|segs| - 1]]
  }

  function SerializeAll(ops: seq<Operation>): seq<string> {
    if |ops| == 0 then [] else SerializeAll(ops[..|ops| - 1]) + [Serialize(ops[|ops| - 1])]
  }

  /**
   * Re-serializing the dispatched operations reproduces, in order, exactly
   * the segments that were not `info` or `format`.
   */
  lemma {:induction false} DispatchedRoundTrip(segs: seq<string>)
    ensures SerializeAll(Dispatchable(ParseAll(segs))) == NonSpecialSegments(segs)
  {
    if |segs| > 0 {
      var n := |segs| - 1;
      DispatchedRoundTrip(segs[..n]);
      var ops := ParseAll(segs);
      assert ops[..n] == ParseAll(segs[..n]);
      var front := Dispatchable(ParseAll(segs[..n]));
      if !IsSpecial(ops[n].name) {
        assert (front + [ops[n]])[..|front|] == front;
      }
    }
  }
}
