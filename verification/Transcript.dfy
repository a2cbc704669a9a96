/** A protocol transcript kept in files of bounded size. */
module Transcript {
  import opened Sequences

  type Bytes = seq<bv8>

  const NEWLINE: bv8 := 10

  /** A row, or the beginning of one, at the end of the last file. */
  lemma AppendKeeps(disk: seq<Bytes>, filed: seq<seq<Bytes>>, rows: seq<Bytes>, landed: Bytes, row: Bytes)
    requires |disk| == |filed| > 0 && landed <= row
    requires Flatten(disk) == Flatten(rows) && Flatten(filed) == rows && disk[|disk| - 1] == Flatten(filed[|disk| - 1])
    ensures var n := |disk| - 1;
            var newDisk, newFiled := disk[n := disk[n] + landed], filed[n := filed[n] + [row]];
            && Flatten(newDisk) <= Flatten(rows + [row]) && Flatten(newFiled) == rows + [row]
            && (landed == row ==> Flatten(newDisk) == Flatten(rows + [row]) && newDisk[n] == Flatten(newFiled[n]))
  {
    var n := |disk| - 1;
    FlattenGrows(rows, row);
    FlattenGrows(filed[n], row);
    FlattenReplacesLast(disk, disk[n] + landed);
    FlattenReplacesLast(filed, filed[n] + [row]);
    var start := Flatten(disk[..n]);
    assert start + (disk[n] + landed) == Flatten(rows) + landed;
    assert Flatten(rows) + landed <= Flatten(rows) + row;
  }

  class TranscriptFile {
    const rotateBytes: nat
    var open: bool
    var index: nat
    var bytesWritten: nat
    // What is on disk, file by file, the rows each file was given, and all rows offered.
    ghost var disk: seq<Bytes>
    ghost var filed: seq<seq<Bytes>>
    ghost var rows: seq<Bytes>
    // How many operations on files have failed.
    ghost var failures: nat

    constructor (rotateBytes: nat)
      ensures Valid() && this.rotateBytes == rotateBytes && rows == []
    {
      this.rotateBytes := rotateBytes;
      var created: bool := *;
      open, index, bytesWritten := created, 0, 0;
      failures := if created then 0 else 1;
      rows := [];
      disk := if created then [[]] else [];
      filed := if created then [[]] else [];
      new;
      assert created ==> disk[..0] == [] && filed[..0] == [];
    }

    ghost predicate Valid()
      reads this
    {
      && |disk| == |filed|
      && InOrder()
      && Bounded()
      && (open <==> failures == 0)
      && (open ==> Complete())
    }

    /** Nothing is lost, repeated or reordered: the files, one after another, begin the rows
        offered. */
    ghost predicate InOrder()
      reads this
    {
      Flatten(disk) <= Flatten(rows)
    }

    /** While no I/O has failed, the files hold exactly the rows offered, each in one file. */
    ghost predicate Complete()
      reads this
    {
      && Flatten(disk) == Flatten(rows)
      && Flatten(filed) == rows
      && |disk| == |filed| == index + 1
      && (forall i :: 0 <= i < |disk| ==> disk[i] == Flatten(filed[i]))
      && bytesWritten == |disk[index]|
    }

    /** Each file is within the limit, or holds at most one row. */
    ghost predicate Bounded()
      requires |disk| == |filed|
      reads this
    {
      rotateBytes > 0 ==>
        forall i :: 0 <= i < |disk| ==> |disk[i]| <= rotateBytes || (|filed[i]| == 1 && disk[i] <= filed[i][0])
    }

    /** One operation on a file. */
    method Attempt() returns (ok: bool)
      modifies this`failures
      ensures failures == old(failures) + (if ok then 0 else 1)
    {
      ok := *;
      failures := failures + (if ok then 0 else 1);
    }

    /** Starts the next file. */
    method Rotate()
      requires Valid() && open
      modifies this`open, this`index, this`bytesWritten, this`disk, this`filed, this`failures
      ensures Valid() && Flatten(disk) == Flatten(old(disk)) && index == old(index) + 1
      ensures open ==> bytesWritten == 0 && filed == old(filed) + [[]]
    {
      hide Flatten;
      FlattenNothing<Bytes>();
      FlattenNothing<bv8>();
      index := index + 1;
      var created := Attempt();
      if created {
        FlattenGrows(disk, []);
        FlattenGrows(filed, []);
        disk, filed := disk + [[]], filed + [[]];
        bytesWritten := 0;
      } else {
        open := false;
      }
    }

    /** Does a row fit behind what its file already holds? */
    predicate FitsBehind(bytes: nat, line: Bytes) {
      rotateBytes == 0 || bytes + |line| + 1 <= rotateBytes
    }

    /** Writes one row: into the current file if it fits there, and otherwise into the next one.
        After a failure nothing more is written, and without one the file stays open. */
    method WriteLine(line: Bytes)
      requires Valid()
      modifies this
      ensures Valid() && rows == old(rows) + [line + [10]]
      ensures !old(open) ==> !open && disk == old(disk) && failures == old(failures)
      ensures old(open) && !open ==> failures > old(failures)
      ensures old(open) ==> index == old(index) + (if FitsBehind(old(bytesWritten), line) then 0 else 1)
      ensures open && FitsBehind(old(bytesWritten), line) ==>
        filed == old(filed)[old(index) := old(filed[index]) + [line + [10]]]
      ensures open && !FitsBehind(old(bytesWritten), line) ==> filed == old(filed) + [[line + [10]]]
    {
      hide Flatten;
      ghost var row := line + [NEWLINE];
      FlattenGrows(rows, row);
      if !open {
        rows := rows + [row];
        return;
      }
      if rotateBytes > 0 && bytesWritten + |line| + 1 > rotateBytes {
        Rotate();
        if !open {
          rows := rows + [row];
          return;
        }
      }
      ghost var start := filed;
      Append(line);
      assert start[index] == [] ==> start[index] + [row] == [row];
    }

    /** Appends one row to the current file, or as much of it as goes before a failure. */
    method Append(line: Bytes)
      requires Valid() && open
      requires rotateBytes > 0 ==> filed[index] == [] || bytesWritten + |line| + 1 <= rotateBytes
      modifies this
      ensures Valid() && rows == old(rows) + [line + [10]] && index == old(index)
      ensures filed == old(filed)[index := old(filed[index]) + [line + [10]]]
    {
      hide Flatten;
      FlattenNothing<bv8>();
      FlattenNothing<Bytes>();
      ghost var row := line + [NEWLINE];
      ghost var kept: nat :| kept <= |line| + 1;
      var written := Attempt();
      var flushed := false;
      if written {
        flushed := Attempt();
      }
      ghost var landed := if written && flushed then row else row[..kept];
      AppendKeeps(disk, filed, rows, landed, row);
      disk := disk[index := disk[index] + landed];
      filed := filed[index := filed[index] + [row]];
      rows := rows + [row];
      if written {
        bytesWritten := bytesWritten + |line| + 1;
      }
      open := written && flushed;
    }
  }
}
