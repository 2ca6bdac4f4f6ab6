/** The Wavefront OBJ subset loader. Lines arrive already split on whitespace;
    `float()` and `int()` are given conversions that answer `None` where Python raises
    ValueError. Vertices (`v`), texture coordinates (`vt`) and normals (`vn`) are read
    into tables, face lines (`f`) are split into slots on `/`, and every slot is
    resolved against the tables into one flat vertex. */
module Loader {
  import opened Wrappers
  import opened PyList

  /** One line of the file, as the tokens of `line.split()`. */
  type Line = seq<string>

  /** Why loading stops: a token `float()`/`int()` rejects, a slot with two or more
      than three fields, an index outside its table (or a bare slot past the third),
      and a bare slot before any normal was bound. */
  datatype LoadError = NotANumber | WrongArity | OutOfRange | NoNormal

  /** A line whose first token is exactly `tag`; an empty line has none. */
  predicate Tagged(line: Line, tag: string) {
    |line| > 0 && line[0] == tag
  }

  /** The lines carrying `tag`, in file order. */
  function Records(lines: seq<Line>, tag: string): (r: seq<Line>)
    ensures |r| <= |lines|
    ensures forall i :: 0 <= i < |r| ==> Tagged(r[i], tag)
  {
    if |lines| == 0 then []
    else
      var n := |lines| - 1;
      Records(lines[..n], tag) + (if Tagged(lines[n], tag) then [lines[n]] else [])
  }

  /** Reading two stretches of a file one after the other gives the records of the
      first followed by those of the second. */
  lemma {:induction false} RecordsAppend(a: seq<Line>, b: seq<Line>, tag: string)
    ensures Records(a + b, tag) == Records(a, tag) + Records(b, tag)
  {
    if |b| > 0 {
      var n := |b| - 1;
      assert (a + b)[..|a| + n] == a + b[..n];
      RecordsAppend(a, b[..n], tag);
    } else {
      assert a + b == a;
    }
  }

  /** A single line contributes itself exactly when it carries the tag; an empty line
      contributes nothing and is no error. */
  lemma RecordsOne(line: Line, tag: string)
    ensures Records([line], tag) == if Tagged(line, tag) then [line] else []
  {
    assert [line][..0] == [];
  }

  /** The tokens a table keeps from one of its lines: everything after the tag, or at
      most `width` tokens after it (`split_line[1:3]` is width 2). */
  function Fields(line: Line, width: Option<nat>): (r: seq<string>)
    ensures width.None? && |line| > 0 ==> r == line[1..]
    ensures width.Some? ==> |r| <= width.value
  {
    if width.Some? then Slice(line, 1, 1 + width.value)
    else if |line| == 0 then []
    else line[1..]
  }

  /** `[float(i) for i in toks]`. */
  function Numbers(toks: seq<string>, toReal: string -> Option<real>): (r: Result<seq<real>, LoadError>)
    ensures r.Ok? ==> |r.value| == |toks|
    ensures r.Err? ==> r.error == NotANumber
  {
    if |toks| == 0 then Ok([])
    else
      var n := |toks| - 1;
      var prev :- Numbers(toks[..n], toReal);
      var x :- Need(toReal(toks[n]), NotANumber);
      Ok(prev + [x])
  }

  /** Conversion succeeds exactly when every token converts, and then holds each
      token's value in order. */
  lemma {:induction false} NumbersExact(toks: seq<string>, toReal: string -> Option<real>)
    ensures var r := Numbers(toks, toReal);
      (r.Ok? <==> forall i :: 0 <= i < |toks| ==> toReal(toks[i]).Some?) &&
      (r.Ok? ==> forall i :: 0 <= i < |toks| ==> r.value[i] == toReal(toks[i]).value)
  {
    if |toks| > 0 {
      var n := |toks| - 1;
      NumbersExact(toks[..n], toReal);
      assert forall i :: 0 <= i < n ==> toks[..n][i] == toks[i];
    }
  }

  /** The table read from a file's records: one row of numbers per record, or the
      failure of the first record that does not convert. */
  function Rows(recs: seq<Line>, width: Option<nat>, toReal: string -> Option<real>): (r: Result<seq<seq<real>>, LoadError>)
    ensures r.Err? ==> r.error == NotANumber
  {
    if |recs| == 0 then Ok([])
    else
      var n := |recs| - 1;
      match Rows(recs[..n], width, toReal)
      case Err(e) => Err(e)
      case Ok(prev) =>
        match Numbers(Fields(recs[n], width), toReal)
        case Err(e) => Err(e)
        case Ok(row) => Ok(prev + [row])
  }

  /** A table holds one row per record, each the record's converted fields, and it
      fails exactly when some record does not convert. */
  lemma RowsExact(recs: seq<Line>, width: Option<nat>, toReal: string -> Option<real>)
    ensures var r := Rows(recs, width, toReal);
      (r.Ok? <==> forall i :: 0 <= i < |recs| ==> Numbers(Fields(recs[i], width), toReal).Ok?) &&
      (r.Ok? ==> (|r.value| == |recs| &&
        forall i :: 0 <= i < |recs| ==> r.value[i] == Numbers(Fields(recs[i], width), toReal).value))
  {
    RowsOk(recs, width, toReal);
    if Rows(recs, width, toReal).Ok? {
      RowsValues(recs, width, toReal);
    }
  }

  /** Every record of `recs` converts. */
  predicate AllConvert(recs: seq<Line>, width: Option<nat>, toReal: string -> Option<real>) {
    forall i :: 0 <= i < |recs| ==> Numbers(Fields(recs[i], width), toReal).Ok?
  }

  lemma {:induction false} RowsOk(recs: seq<Line>, width: Option<nat>, toReal: string -> Option<real>)
    ensures Rows(recs, width, toReal).Ok? <==> AllConvert(recs, width, toReal)
  {
    if |recs| > 0 {
      var n := |recs| - 1;
      var init := recs[..n];
      RowsOk(init, width, toReal);
      if AllConvert(recs, width, toReal) {
        assert forall i :: 0 <= i < n ==> init[i] == recs[i];
        assert AllConvert(init, width, toReal);
      }
      if AllConvert(init, width, toReal) && Numbers(Fields(recs[n], width), toReal).Ok? {
        forall i | 0 <= i < |recs|
          ensures Numbers(Fields(recs[i], width), toReal).Ok?
        {
          if i < n { assert init[i] == recs[i]; }
        }
      }
    }
  }

  lemma {:induction false} RowsValues(recs: seq<Line>, width: Option<nat>, toReal: string -> Option<real>)
    requires Rows(recs, width, toReal).Ok?
    ensures |Rows(recs, width, toReal).value| == |recs|
    ensures forall i :: 0 <= i < |recs| ==> (Numbers(Fields(recs[i], width), toReal).Ok? &&
      Rows(recs, width, toReal).value[i] == Numbers(Fields(recs[i], width), toReal).value)
  {
    RowsOk(recs, width, toReal);
    if |recs| > 0 {
      var n := |recs| - 1;
      var init := recs[..n];
      RowsValues(init, width, toReal);
      var prev := Rows(init, width, toReal).value;
      var row := Numbers(Fields(recs[n], width), toReal).value;
      assert Rows(recs, width, toReal).value == prev + [row];
      forall i | 0 <= i < n
        ensures Numbers(Fields(recs[i], width), toReal).Ok?
        ensures (prev + [row])[i] == Numbers(Fields(recs[i], width), toReal).value
      {
        assert init[i] == recs[i];
      }
    }
  }

  /** The loop shared by `get_points`, `get_uvs` and `get_normals`: every line
      carrying `tag`, in order, converted into a row of numbers. */
  method ReadRows(lines: seq<Line>, tag: string, width: Option<nat>, toReal: string -> Option<real>)
    returns (r: Result<seq<seq<real>>, LoadError>)
    ensures r == Rows(Records(lines, tag), width, toReal)
  {
    var rows: seq<seq<real>> := [];
    var i := 0;
    while i < |lines|
      invariant 0 <= i <= |lines|
      invariant Rows(Records(lines[..i], tag), width, toReal) == Ok(rows)
    {
      TableStep(lines, i, tag, width, toReal, rows);
      var line := lines[i];
      if |line| > 0 && line[0] == tag {
        var nums := Numbers(Fields(line, width), toReal);
        if nums.Err? {
          return Err(NotANumber);
        }
        rows := rows + [nums.value];
      }
      i := i + 1;
    }
    assert lines[..i] == lines;
    return Ok(rows);
  }

  /** One iteration of the reading loop: an untagged line leaves the table as it
      was, a tagged line adds its row, and a tagged line that fails to convert fails
      the table of the whole file. */
  lemma TableStep(lines: seq<Line>, i: int, tag: string, width: Option<nat>, toReal: string -> Option<real>,
                  rows: seq<seq<real>>)
    requires 0 <= i < |lines|
    requires Rows(Records(lines[..i], tag), width, toReal) == Ok(rows)
    ensures !Tagged(lines[i], tag) ==> Rows(Records(lines[..i + 1], tag), width, toReal) == Ok(rows)
    ensures Tagged(lines[i], tag) && Numbers(Fields(lines[i], width), toReal).Ok? ==>
      Rows(Records(lines[..i + 1], tag), width, toReal)
        == Ok(rows + [Numbers(Fields(lines[i], width), toReal).value])
    ensures Tagged(lines[i], tag) && Numbers(Fields(lines[i], width), toReal).Err? ==>
      Rows(Records(lines, tag), width, toReal) == Err(NotANumber)
  {
    RecordsStep(lines, i, tag);
    var line := lines[i];
    var prev := Records(lines[..i], tag);
    if Tagged(line, tag) {
      var nums := Numbers(Fields(line, width), toReal);
      if nums.Err? {
        TableFails(lines, i, tag, width, toReal);
      } else {
        RowsStep(prev, line, width, toReal, rows, nums.value);
      }
    } else {
      assert prev + [] == prev;
    }
  }

  lemma TableFails(lines: seq<Line>, i: int, tag: string, width: Option<nat>, toReal: string -> Option<real>)
    requires 0 <= i < |lines| && Tagged(lines[i], tag)
    requires Records(lines[..i + 1], tag) == Records(lines[..i], tag) + [lines[i]]
    requires Numbers(Fields(lines[i], width), toReal).Err?
    ensures Rows(Records(lines, tag), width, toReal) == Err(NotANumber)
  {
    var head, tail := lines[..i + 1], lines[i + 1..];
    RowsStepErr(Records(lines[..i], tag), lines[i], width, toReal);
    RecordsAppend(head, tail, tag);
    assert head + tail == lines;
    RowsAppendErr(Records(head, tag), Records(tail, tag), width, toReal);
  }

  lemma RecordsStep(lines: seq<Line>, i: int, tag: string)
    requires 0 <= i < |lines|
    ensures Records(lines[..i + 1], tag)
         == Records(lines[..i], tag) + (if Tagged(lines[i], tag) then [lines[i]] else [])
  {
    assert lines[..i + 1][..i] == lines[..i];
  }

  lemma RowsStep(recs: seq<Line>, line: Line, width: Option<nat>, toReal: string -> Option<real>,
                 prev: seq<seq<real>>, row: seq<real>)
    requires Rows(recs, width, toReal) == Ok(prev)
    requires Numbers(Fields(line, width), toReal) == Ok(row)
    ensures Rows(recs + [line], width, toReal) == Ok(prev + [row])
  {
    assert (recs + [line])[..|recs|] == recs;
  }

  lemma RowsStepErr(recs: seq<Line>, line: Line, width: Option<nat>, toReal: string -> Option<real>)
    requires Numbers(Fields(line, width), toReal).Err?
    ensures Rows(recs + [line], width, toReal).Err?
  {
    assert (recs + [line])[..|recs|] == recs;
  }

  /** A record that fails to convert fails the whole table, whatever follows it. */
  lemma {:induction false} RowsAppendErr(a: seq<Line>, b: seq<Line>, width: Option<nat>,
                                         toReal: string -> Option<real>)
    requires Rows(a, width, toReal).Err?
    ensures Rows(a + b, width, toReal) == Err(NotANumber)
  {
    if |b| > 0 {
      var n := |b| - 1;
      RowsAppendErr(a, b[..n], width, toReal);
      assert (a + b)[..|a| + n] == a + b[..n];
    } else {
      assert a + b == a;
    }
  }

  /** `get_points`: one row per `v` line, in file order, holding every number after
      the tag. */
  method GetPoints(lines: seq<Line>, toReal: string -> Option<real>) returns (r: Result<seq<seq<real>>, LoadError>)
    ensures r == Rows(Records(lines, "v"), None, toReal)
    ensures r.Ok? ==> (|r.value| == |Records(lines, "v")| &&
      forall i :: 0 <= i < |r.value| ==> |r.value[i]| == |Records(lines, "v")[i]| - 1)
  {
    r := ReadRows(lines, "v", None, toReal);
    RowsExact(Records(lines, "v"), None, toReal);
  }

  /** `get_uvs`: one row per `vt` line, holding at most the two numbers after the tag. */
  method GetUvs(lines: seq<Line>, toReal: string -> Option<real>) returns (r: Result<seq<seq<real>>, LoadError>)
    ensures r == Rows(Records(lines, "vt"), Some(2), toReal)
    ensures r.Ok? ==> (|r.value| == |Records(lines, "vt")| &&
      forall i :: 0 <= i < |r.value| ==> |r.value[i]| <= 2)
  {
    r := ReadRows(lines, "vt", Some(2), toReal);
    RowsExact(Records(lines, "vt"), Some(2), toReal);
  }

  /** `get_normals`: one row per `vn` line, holding at most the two numbers after the
      tag, so the third component of a normal is dropped. */
  method GetNormals(lines: seq<Line>, toReal: string -> Option<real>) returns (r: Result<seq<seq<real>>, LoadError>)
    ensures r == Rows(Records(lines, "vn"), Some(2), toReal)
    ensures r.Ok? ==> (|r.value| == |Records(lines, "vn")| &&
      forall i :: 0 <= i < |r.value| ==> |r.value[i]| <= 2)
  {
    r := ReadRows(lines, "vn", Some(2), toReal);
    RowsExact(Records(lines, "vn"), Some(2), toReal);
  }

  /** A normal written with three components is read as its first two. */
  lemma NormalTruncated(line: Line, toReal: string -> Option<real>)
    requires |line| == 4 && line[0] == "vn"
    requires forall i :: 1 <= i < 4 ==> toReal(line[i]).Some?
    ensures Rows(Records([line], "vn"), Some(2), toReal)
         == Ok([[toReal(line[1]).value, toReal(line[2]).value]])
  {
    RecordsOne(line, "vn");
    var toks := Fields(line, Some(2));
    assert toks == line[1..3];
    assert toks[0] == line[1] && toks[1] == line[2];
    NumbersExact(toks, toReal);
    var row := Numbers(toks, toReal).value;
    assert row == [toReal(line[1]).value, toReal(line[2]).value];
    var none: seq<Line> := [];
    var empty: seq<seq<real>> := [];
    assert Rows(none, Some(2), toReal) == Ok(empty);
    RowsStep(none, line, Some(2), toReal, empty, row);
    assert none + [line] == [line] && empty + [row] == [row];
    assert Records([line], "vn") == [line];
  }

  /** Python's `s.split("/")`: the pieces between separators, empty ones included;
      there is always at least one piece. */
  function Split(s: string): (r: seq<string>)
    ensures |r| >= 1
  {
    if |s| == 0 then [""]
    else
      var rest := Split(s[1..]);
      if s[0] == '/' then [""] + rest else [[s[0]] + rest[0]] + rest[1..]
  }

  /** `"/".join(parts)`. */
  function Join(parts: seq<string>): string
    requires |parts| >= 1
  {
    if |parts| == 1 then parts[0] else parts[0] + "/" + Join(parts[1..])
  }

  /** Splitting loses nothing: joining the pieces back gives the slot text, and no
      piece contains a separator. */
  lemma {:induction false} SplitJoin(s: string)
    ensures Join(Split(s)) == s
    ensures forall i :: 0 <= i < |Split(s)| ==> '/' !in Split(s)[i]
  {
    if |s| > 0 {
      SplitJoin(s[1..]);
      var rest := Split(s[1..]);
      if s[0] == '/' {
        assert Split(s)[1..] == rest;
        assert s == "/" + s[1..];
      } else {
        var head := [s[0]] + rest[0];
        if |rest| == 1 {
          assert Join(Split(s)) == head;
        } else {
          assert Split(s)[1..] == rest[1..];
          assert Join(rest) == rest[0] + "/" + Join(rest[1..]);
        }
        assert s == [s[0]] + s[1..];
      }
    }
  }

  /** The number of `/` in a slot's text. */
  function Separators(s: string): nat {
    if |s| == 0 then 0 else (if s[0] == '/' then 1 else 0) + Separators(s[1..])
  }

  /** The separators determine the piece count: one more piece than there are `/`. */
  lemma {:induction false} SplitCount(s: string)
    ensures |Split(s)| == Separators(s) + 1
  {
    if |s| > 0 {
      SplitCount(s[1..]);
    }
  }

  /** A face line's slots, `[i.split("/") for i in split_line[1:]]`. */
  function Slots(line: Line): (r: seq<seq<string>>)
    requires |line| > 0
    ensures |r| == |line| - 1
  {
    seq(|line| - 1, k requires 0 <= k < |line| - 1 => Split(line[k + 1]))
  }

  /** The face lines' slots, one entry per `f` line in file order. */
  function Edges(lines: seq<Line>): (r: seq<seq<seq<string>>>)
    ensures |r| == |Records(lines, "f")|
  {
    var recs := Records(lines, "f");
    seq(|recs|, i requires 0 <= i < |recs| => Slots(recs[i]))
  }

  /** `get_edges`: one entry per `f` line, in file order, each holding the line's
      slots split on `/`, as many as the line has tokens after the tag. */
  method GetEdges(lines: seq<Line>) returns (edges: seq<seq<seq<string>>>)
    ensures |edges| == |Records(lines, "f")|
    ensures forall i :: 0 <= i < |edges| ==> edges[i] == Slots(Records(lines, "f")[i])
    ensures forall i :: 0 <= i < |edges| ==> |edges[i]| == |Records(lines, "f")[i]| - 1
    ensures edges == Edges(lines)
  {
    edges := [];
    var i := 0;
    while i < |lines|
      invariant 0 <= i <= |lines|
      invariant |edges| == |Records(lines[..i], "f")|
      invariant forall j :: 0 <= j < |edges| ==> edges[j] == Slots(Records(lines[..i], "f")[j])
    {
      assert lines[..i + 1][..i] == lines[..i];
      var line := lines[i];
      if |line| > 0 && line[0] == "f" {
        var inds: seq<seq<string>> := [];
        var k := 1;
        while k < |line|
          invariant 1 <= k <= |line| && |inds| == k - 1
          invariant forall j :: 0 <= j < k - 1 ==> inds[j] == Split(line[j + 1])
        {
          inds := inds + [Split(line[k])];
          k := k + 1;
        }
        edges := edges + [inds];
      }
      i := i + 1;
    }
    assert lines[..i] == lines;
  }

  /** The three tables a slot is resolved against. */
  datatype Tables = Tables(points: seq<seq<real>>, uvs: seq<seq<real>>, vns: seq<seq<real>>)

  /** The texture coordinates a bare slot takes, by its position in the face. */
  const DefaultUv: seq<seq<real>> := [[0.0, 0.0], [1.0, 0.0], [0.0, 1.0]]

  /** `table[int(text) - 1]`: a 1-based index through Python's indexing, so the
      indices 0 down to `1 - n` count back from the last row, and indices past
      either end fail. */
  function Lookup(table: seq<seq<real>>, text: string, toInt: string -> Option<int>): (r: Result<seq<real>, LoadError>)
    ensures toInt(text).None? ==> r == Err(NotANumber)
    ensures toInt(text).Some? && 1 <= toInt(text).value <= |table| ==> r == Ok(table[toInt(text).value - 1])
    ensures toInt(text) == Some(0) && |table| > 0 ==> r == Ok(table[|table| - 1])
    ensures toInt(text).Some? && toInt(text).value > |table| ==> r == Err(OutOfRange)
    ensures toInt(text).Some? && 1 - |table| <= toInt(text).value <= 0 ==>
      r == Ok(table[|table| + toInt(text).value - 1])
    ensures toInt(text).Some? && toInt(text).value <= -|table| ==> r == Err(OutOfRange)
    ensures r.Err? ==> r.error == NotANumber || r.error == OutOfRange
  {
    var n :- Need(toInt(text), NotANumber);
    Need(At(table, n - 1), OutOfRange)
  }

  /** One slot of a face at position `pos`, with `vn` the normal bound so far: the
      vertex it yields and the normal bound after it. A slot of three fields reads
      all three tables and binds its normal; a bare slot takes the default texture
      coordinate for its position and the normal bound so far. */
  function ResolveSlot(slot: seq<string>, pos: nat, vn: Option<seq<real>>, t: Tables,
                       toInt: string -> Option<int>): (r: Result<(seq<real>, Option<seq<real>>), LoadError>)
    ensures |slot| > 1 && |slot| != 3 ==> r == Err(WrongArity)
    ensures r.Ok? && |slot| > 1 ==> r.value.1.Some? && r.value.1 == Lookup(t.vns, slot[2], toInt).ToOption()
    ensures r.Ok? && |slot| <= 1 ==> r.value.1 == vn && vn.Some? && pos < 3
  {
    if |slot| > 1 then
      if |slot| != 3 then Err(WrongArity)
      else
        var point :- Lookup(t.points, slot[0], toInt);
        var uv :- Lookup(t.uvs, slot[1], toInt);
        var n :- Lookup(t.vns, slot[2], toInt);
        Ok((point + uv + n, Some(n)))
    else
      var point :- if |slot| == 0 then Err(OutOfRange) else Lookup(t.points, slot[0], toInt);
      var uv :- Need(At(DefaultUv, pos), OutOfRange);
      var n :- Need(vn, NoNormal);
      Ok((point + uv + n, vn))
  }

  /** A slot `a/b/c` whose indices are in range yields `points[a-1] + uvs[b-1] +
      vns[c-1]` and binds `vns[c-1]`. */
  lemma TripleSlot(slot: seq<string>, pos: nat, vn: Option<seq<real>>, t: Tables,
                   toInt: string -> Option<int>, a: int, b: int, c: int)
    requires |slot| == 3
    requires toInt(slot[0]) == Some(a) && 1 <= a <= |t.points|
    requires toInt(slot[1]) == Some(b) && 1 <= b <= |t.uvs|
    requires toInt(slot[2]) == Some(c) && 1 <= c <= |t.vns|
    ensures ResolveSlot(slot, pos, vn, t, toInt)
         == Ok((t.points[a - 1] + t.uvs[b - 1] + t.vns[c - 1], Some(t.vns[c - 1])))
  {
  }

  /** A bare slot whose index is in range fails past the third position and before
      any normal is bound, and otherwise yields the point, the default texture
      coordinate for its position and the normal bound so far. */
  lemma BareSlot(slot: seq<string>, pos: nat, vn: Option<seq<real>>, t: Tables,
                 toInt: string -> Option<int>, a: int)
    requires |slot| == 1 && toInt(slot[0]) == Some(a) && 1 <= a <= |t.points|
    ensures pos >= 3 ==> ResolveSlot(slot, pos, vn, t, toInt) == Err(OutOfRange)
    ensures pos < 3 && vn.None? ==> ResolveSlot(slot, pos, vn, t, toInt) == Err(NoNormal)
    ensures pos < 3 && vn.Some? ==>
      ResolveSlot(slot, pos, vn, t, toInt) == Ok((t.points[a - 1] + DefaultUv[pos] + vn.value, vn))
  {
  }

  /** An index past the end of the point table stops loading rather than producing
      a vertex, whatever the kind of slot. */
  lemma IndexPastEnd(slot: seq<string>, pos: nat, vn: Option<seq<real>>, t: Tables,
                     toInt: string -> Option<int>)
    requires |slot| == 1 || |slot| == 3
    requires toInt(slot[0]).Some? && toInt(slot[0]).value > |t.points|
    ensures ResolveSlot(slot, pos, vn, t, toInt) == Err(OutOfRange)
  {
  }

  /** The vertices of one face and the normal bound after it, or the first failure. */
  function AssembleFace(slots: seq<seq<string>>, vn: Option<seq<real>>, t: Tables,
                        toInt: string -> Option<int>): (r: Result<(seq<seq<real>>, Option<seq<real>>), LoadError>)
    ensures r.Ok? ==> |r.value.0| == |slots|
  {
    if |slots| == 0 then Ok(([], vn))
    else
      var n := |slots| - 1;
      var prev :- AssembleFace(slots[..n], vn, t, toInt);
      var step :- ResolveSlot(slots[n], n, prev.1, t, toInt);
      Ok((prev.0 + [step.0], step.1))
  }

  /** All faces, the normal binding carried from each face into the next. */
  function AssembleFaces(edges: seq<seq<seq<string>>>, vn: Option<seq<real>>, t: Tables,
                         toInt: string -> Option<int>): (r: Result<(seq<seq<seq<real>>>, Option<seq<real>>), LoadError>)
    ensures r.Ok? ==> (|r.value.0| == |edges| &&
      forall i :: 0 <= i < |edges| ==> |r.value.0[i]| == |edges[i]|)
  {
    if |edges| == 0 then Ok(([], vn))
    else
      var n := |edges| - 1;
      var prev :- AssembleFaces(edges[..n], vn, t, toInt);
      var face :- AssembleFace(edges[n], prev.1, t, toInt);
      Ok((prev.0 + [face.0], face.1))
  }

  /** The number of normal components `get_normals` keeps. */
  const NormalWidth: nat := 2

  /** The three tables of a file, read in the order `get_faces` reads them (points,
      texture coordinates, normals), normals cut to `normalWidth` numbers. */
  function ReadTables(lines: seq<Line>, toReal: string -> Option<real>, normalWidth: nat)
    : (r: Result<Tables, LoadError>)
  {
    var points :- Rows(Records(lines, "v"), None, toReal);
    var uvs :- Rows(Records(lines, "vt"), Some(2), toReal);
    var vns :- Rows(Records(lines, "vn"), Some(normalWidth), toReal);
    Ok(Tables(points, uvs, vns))
  }

  /** Every face assembled against the tables, with no normal bound at the start. */
  function LoadWith(lines: seq<Line>, toReal: string -> Option<real>, toInt: string -> Option<int>,
                    normalWidth: nat): (r: Result<seq<seq<seq<real>>>, LoadError>)
    ensures r.Ok? ==> ReadTables(lines, toReal, normalWidth).Ok?
    ensures r.Ok? ==> (|r.value| == |Edges(lines)| &&
      forall i :: 0 <= i < |r.value| ==> |r.value[i]| == |Edges(lines)[i]|)
  {
    var t :- ReadTables(lines, toReal, normalWidth);
    var faces :- AssembleFaces(Edges(lines), None, t, toInt);
    Ok(faces.0)
  }

  /** What `get_faces` returns for a file. */
  function Load(lines: seq<Line>, toReal: string -> Option<real>, toInt: string -> Option<int>)
    : (r: Result<seq<seq<seq<real>>>, LoadError>)
  {
    LoadWith(lines, toReal, toInt, NormalWidth)
  }

  /** Loading with every normal kept whole, three numbers to a `vn` line. */
  function LoadFull(lines: seq<Line>, toReal: string -> Option<real>, toInt: string -> Option<int>)
    : (r: Result<seq<seq<seq<real>>>, LoadError>)
  {
    LoadWith(lines, toReal, toInt, 3)
  }

  /** A slot `a/b/c` whose indices are in range loads as `points[a-1] + uvs[b-1] +
      vns[c-1]`, wherever it sits in the file. */
  lemma TripleVertex(lines: seq<Line>, toReal: string -> Option<real>, toInt: string -> Option<int>,
                     normalWidth: nat, f: int, k: int, a: int, b: int, c: int)
    requires LoadWith(lines, toReal, toInt, normalWidth).Ok?
    requires 0 <= f < |Edges(lines)| && 0 <= k < |Edges(lines)[f]|
    requires var slot := Edges(lines)[f][k]; var t := ReadTables(lines, toReal, normalWidth).value;
      |slot| == 3 &&
      toInt(slot[0]) == Some(a) && 1 <= a <= |t.points| &&
      toInt(slot[1]) == Some(b) && 1 <= b <= |t.uvs| &&
      toInt(slot[2]) == Some(c) && 1 <= c <= |t.vns|
    ensures var t := ReadTables(lines, toReal, normalWidth).value;
      LoadWith(lines, toReal, toInt, normalWidth).value[f][k] == t.points[a - 1] + t.uvs[b - 1] + t.vns[c - 1]
  {
    var t := ReadTables(lines, toReal, normalWidth).value;
    var edges := Edges(lines);
    FaceAt(edges, None, t, toInt, f);
    var before := BoundNormal(Flatten(edges[..f]), None, t.vns, toInt);
    FaceVertex(edges[f], before, t, toInt, k);
    TripleSlot(edges[f][k], k, BoundNormal(edges[f][..k], before, t.vns, toInt), t, toInt, a, b, c);
  }

  /** Loading yields exactly one face per `f` line and one vertex per slot, in file
      order. */
  lemma LoadShape(lines: seq<Line>, toReal: string -> Option<real>, toInt: string -> Option<int>)
    ensures var r := Load(lines, toReal, toInt);
      r.Ok? ==> (|r.value| == |Records(lines, "f")| &&
        forall i :: 0 <= i < |r.value| ==> |r.value[i]| == |Records(lines, "f")[i]| - 1)
  {
  }

  /** The last slot with more than one field, if any. */
  function LastTriple(slots: seq<seq<string>>): Option<seq<string>> {
    if |slots| == 0 then None
    else if |slots[|slots| - 1]| > 1 then Some(slots[|slots| - 1])
    else LastTriple(slots[..|slots| - 1])
  }

  /** The normal bound after a run of slots, starting from `vn`: that of the last
      slot with three fields, or `vn` if there is none. */
  function BoundNormal(slots: seq<seq<string>>, vn: Option<seq<real>>, vns: seq<seq<real>>,
                       toInt: string -> Option<int>): Option<seq<real>> {
    match LastTriple(slots)
    case None => vn
    case Some(s) => if |s| == 3 then Lookup(vns, s[2], toInt).ToOption() else None
  }

  lemma {:induction false} LastTripleAppend(a: seq<seq<string>>, b: seq<seq<string>>)
    ensures LastTriple(a + b) == if LastTriple(b).Some? then LastTriple(b) else LastTriple(a)
  {
    if |b| > 0 {
      var n := |b| - 1;
      assert (a + b)[..|a| + n] == a + b[..n];
      assert (a + b)[|a| + n] == b[n];
      LastTripleAppend(a, b[..n]);
    } else {
      assert a + b == a;
    }
  }

  /** Binding is sequential: the normal bound after `a + b` is the one `b` binds
      when started from what `a` bound. */
  lemma BoundNormalAppend(a: seq<seq<string>>, b: seq<seq<string>>, vn: Option<seq<real>>,
                          vns: seq<seq<real>>, toInt: string -> Option<int>)
    ensures BoundNormal(a + b, vn, vns, toInt) == BoundNormal(b, BoundNormal(a, vn, vns, toInt), vns, toInt)
  {
    LastTripleAppend(a, b);
  }

  /** A face leaves bound the normal of its last slot with three fields, or the one
      it started from if it has none. */
  lemma {:induction false} FaceBound(slots: seq<seq<string>>, vn: Option<seq<real>>, t: Tables,
                                     toInt: string -> Option<int>)
    requires AssembleFace(slots, vn, t, toInt).Ok?
    ensures AssembleFace(slots, vn, t, toInt).value.1 == BoundNormal(slots, vn, t.vns, toInt)
  {
    if |slots| > 0 {
      var n := |slots| - 1;
      FaceBound(slots[..n], vn, t, toInt);
    }
  }

  /** Each vertex of an assembled face is its slot resolved with the normal bound by
      the slots before it. */
  lemma {:induction false} FaceVertex(slots: seq<seq<string>>, vn: Option<seq<real>>, t: Tables,
                                      toInt: string -> Option<int>, k: int)
    requires AssembleFace(slots, vn, t, toInt).Ok? && 0 <= k < |slots|
    ensures ResolveSlot(slots[k], k, BoundNormal(slots[..k], vn, t.vns, toInt), t, toInt).Ok?
    ensures AssembleFace(slots, vn, t, toInt).value.0[k]
         == ResolveSlot(slots[k], k, BoundNormal(slots[..k], vn, t.vns, toInt), t, toInt).value.0
  {
    var n := |slots| - 1;
    if k == n {
      FaceBound(slots[..n], vn, t, toInt);
    } else {
      FaceVertex(slots[..n], vn, t, toInt, k);
      assert slots[..n][..k] == slots[..k];
    }
  }

  /** The concatenation of every face's slots, in file order. */
  function Flatten(edges: seq<seq<seq<string>>>): (r: seq<seq<string>>)
    ensures |edges| > 0 ==> r == Flatten(edges[..|edges| - 1]) + edges[|edges| - 1]
  {
    if |edges| == 0 then [] else Flatten(edges[..|edges| - 1]) + edges[|edges| - 1]
  }

  /** The normal bound after all faces is that of the last three-field slot in the
      whole file, or the starting one if there is none. */
  lemma {:induction false} FacesBound(edges: seq<seq<seq<string>>>, vn: Option<seq<real>>, t: Tables,
                                      toInt: string -> Option<int>)
    requires AssembleFaces(edges, vn, t, toInt).Ok?
    ensures AssembleFaces(edges, vn, t, toInt).value.1 == BoundNormal(Flatten(edges), vn, t.vns, toInt)
  {
    if |edges| > 0 {
      var n := |edges| - 1;
      FacesBound(edges[..n], vn, t, toInt);
      var prev := AssembleFaces(edges[..n], vn, t, toInt).value;
      FaceBound(edges[n], prev.1, t, toInt);
      BoundNormalAppend(Flatten(edges[..n]), edges[n], vn, t.vns, toInt);
    }
  }

  /** Each assembled face is its slots assembled with the normal bound by every slot
      of the faces before it. */
  lemma {:induction false} FaceAt(edges: seq<seq<seq<string>>>, vn: Option<seq<real>>, t: Tables,
                                  toInt: string -> Option<int>, i: int)
    requires AssembleFaces(edges, vn, t, toInt).Ok? && 0 <= i < |edges|
    ensures AssembleFace(edges[i], BoundNormal(Flatten(edges[..i]), vn, t.vns, toInt), t, toInt).Ok?
    ensures AssembleFaces(edges, vn, t, toInt).value.0[i]
         == AssembleFace(edges[i], BoundNormal(Flatten(edges[..i]), vn, t.vns, toInt), t, toInt).value.0
  {
    var n := |edges| - 1;
    if i == n {
      FacesBound(edges[..n], vn, t, toInt);
    } else {
      FaceAt(edges[..n], vn, t, toInt, i);
      assert edges[..n][..i] == edges[..i];
    }
  }

  /** The normal a bare slot carries leaks in from anywhere before it in the file:
      a bare slot at position `k` of face `f` yields its point, the default texture
      coordinate for `k`, and the normal of the last three-field slot among all
      earlier faces and the earlier slots of its own face. Loading succeeds only if
      such a slot exists and `k` is below 3. */
  lemma BareSlotVertex(edges: seq<seq<seq<string>>>, t: Tables, toInt: string -> Option<int>,
                       f: int, k: int, a: int)
    requires AssembleFaces(edges, None, t, toInt).Ok?
    requires 0 <= f < |edges| && 0 <= k < |edges[f]|
    requires |edges[f][k]| == 1 && toInt(edges[f][k][0]) == Some(a) && 1 <= a <= |t.points|
    ensures k < 3
    ensures var vn := BoundNormal(Flatten(edges[..f]) + edges[f][..k], None, t.vns, toInt);
      vn.Some? && AssembleFaces(edges, None, t, toInt).value.0[f][k] == t.points[a - 1] + DefaultUv[k] + vn.value
  {
    FaceAt(edges, None, t, toInt, f);
    var before := BoundNormal(Flatten(edges[..f]), None, t.vns, toInt);
    FaceVertex(edges[f], before, t, toInt, k);
    BoundNormalAppend(Flatten(edges[..f]), edges[f][..k], None, t.vns, toInt);
    var vn := BoundNormal(edges[f][..k], before, t.vns, toInt);
    BareSlot(edges[f][k], k, vn, t, toInt, a);
  }

  lemma {:induction false} FacePrefixErr(slots: seq<seq<string>>, k: nat, vn: Option<seq<real>>, t: Tables,
                                         toInt: string -> Option<int>)
    requires k <= |slots| && AssembleFace(slots[..k], vn, t, toInt).Err?
    ensures AssembleFace(slots, vn, t, toInt).Err?
    ensures AssembleFace(slots, vn, t, toInt).error == AssembleFace(slots[..k], vn, t, toInt).error
  {
    if k < |slots| {
      var n := |slots| - 1;
      assert slots[..n][..k] == slots[..k];
      FacePrefixErr(slots[..n], k, vn, t, toInt);
    } else {
      assert slots[..k] == slots;
    }
  }

  lemma {:induction false} FacesPrefixErr(edges: seq<seq<seq<string>>>, k: nat, vn: Option<seq<real>>, t: Tables,
                                          toInt: string -> Option<int>)
    requires k <= |edges| && AssembleFaces(edges[..k], vn, t, toInt).Err?
    ensures AssembleFaces(edges, vn, t, toInt).Err?
    ensures AssembleFaces(edges, vn, t, toInt).error == AssembleFaces(edges[..k], vn, t, toInt).error
  {
    if k < |edges| {
      var n := |edges| - 1;
      assert edges[..n][..k] == edges[..k];
      FacesPrefixErr(edges[..n], k, vn, t, toInt);
    } else {
      assert edges[..k] == edges;
    }
  }

  /** The inner loop of `get_faces`: the slots of one face line resolved in order,
      starting from the normal bound by the lines before it. */
  method AssembleOne(edge: seq<seq<string>>, vn0: Option<seq<real>>, t: Tables, toInt: string -> Option<int>)
    returns (r: Result<(seq<seq<real>>, Option<seq<real>>), LoadError>)
    ensures r == AssembleFace(edge, vn0, t, toInt)
  {
    var face: seq<seq<real>> := [];
    var vn := vn0;
    var i := 0;
    while i < |edge|
      invariant 0 <= i <= |edge|
      invariant AssembleFace(edge[..i], vn0, t, toInt) == Ok((face, vn))
    {
      assert edge[..i + 1][..i] == edge[..i];
      var step := ResolveSlot(edge[i], i, vn, t, toInt);
      if step.Err? {
        FacePrefixErr(edge, i + 1, vn0, t, toInt);
        return Err(step.error);
      }
      face := face + [step.value.0];
      vn := step.value.1;
      i := i + 1;
    }
    assert edge[..i] == edge;
    return Ok((face, vn));
  }

  /** The face-assembly loop of `get_faces`: every face line in order, the normal
      binding living across faces; the first failure ends loading. */
  method AssembleAll(edges: seq<seq<seq<string>>>, t: Tables, toInt: string -> Option<int>)
    returns (r: Result<seq<seq<seq<real>>>, LoadError>)
    ensures r.Ok? <==> AssembleFaces(edges, None, t, toInt).Ok?
    ensures r.Ok? ==> r.value == AssembleFaces(edges, None, t, toInt).value.0
    ensures r.Err? ==> r.error == AssembleFaces(edges, None, t, toInt).error
  {
    var faces: seq<seq<seq<real>>> := [];
    var vn: Option<seq<real>> := None;
    var e := 0;
    while e < |edges|
      invariant 0 <= e <= |edges|
      invariant AssembleFaces(edges[..e], None, t, toInt) == Ok((faces, vn))
    {
      assert edges[..e + 1][..e] == edges[..e];
      assert edges[..e + 1][e] == edges[e];
      var face := AssembleOne(edges[e], vn, t, toInt);
      if face.Err? {
        FacesPrefixErr(edges, e + 1, None, t, toInt);
        return Err(face.error);
      }
      faces := faces + [face.value.0];
      vn := face.value.1;
      e := e + 1;
    }
    assert edges[..e] == edges;
    return Ok(faces);
  }

  /** `get_faces`: the tables are read (points, then texture coordinates, then
      normals), then every face is assembled. */
  method GetFaces(lines: seq<Line>, toReal: string -> Option<real>, toInt: string -> Option<int>)
    returns (r: Result<seq<seq<seq<real>>>, LoadError>)
    ensures r == Load(lines, toReal, toInt)
  {
    var points := GetPoints(lines, toReal);
    if points.Err? { return Err(points.error); }
    var edges := GetEdges(lines);
    var uvs := GetUvs(lines, toReal);
    if uvs.Err? { return Err(uvs.error); }
    var vns := GetNormals(lines, toReal);
    if vns.Err? { return Err(vns.error); }
    assert ReadTables(lines, toReal, NormalWidth) == Ok(Tables(points.value, uvs.value, vns.value));
    r := AssembleAll(edges, Tables(points.value, uvs.value, vns.value), toInt);
  }
}
