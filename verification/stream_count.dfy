/** How many files a stream of rows fills: with `flush_size` rows per file
    and the remainder in one last file, `n` rows make `ceil(n / flush_size)`
    files. */
module StreamCount {
  import opened Writer
  import opened WriterStream

  /** The rows the files claim to hold, file after file. */
  function TotalRows(files: seq<ParquetFile>): nat
    decreases |files|
  {
    if |files| == 0 then 0 else files[0].numRows + TotalRows(files[1..])
  }

  /** Reading the files back gives exactly the rows they claim to hold. */
  lemma {:induction false} AllRowsCount(files: seq<ParquetFile>)
    requires AllReadable(files)
    ensures |AllRows(files)| == TotalRows(files)
    decreases |files|
  {
    if |files| > 0 {
      assert AllReadable(files[1..]) by {
        forall k | 0 <= k < |files[1..]|
          ensures Readable(files[1..][k])
        {
          assert files[1..][k] == files[k + 1];
        }
      }
      AllRowsCount(files[1..]);
    }
  }

  /** Full files then a last one with `last` rows hold `(m - 1) * n + last` rows. */
  lemma {:induction false} FullThenLast(files: seq<ParquetFile>, n: nat)
    requires |files| > 0
    requires forall k :: 0 <= k < |files| - 1 ==> files[k].numRows == n
    ensures TotalRows(files) == (|files| - 1) * n + files[|files| - 1].numRows
    decreases |files|
  {
    if |files| > 1 {
      var rest := files[1..];
      forall k | 0 <= k < |rest| - 1
        ensures rest[k].numRows == n
      {
        assert rest[k] == files[k + 1];
      }
      FullThenLast(rest, n);
      assert rest[|rest| - 1] == files[|files| - 1];
      assert (|files| - 1) * n == n + (|rest| - 1) * n;
    }
  }

  /** `q` full groups and a remainder of 1 to `n` round up to `q + 1` groups. */
  lemma {:induction false} CeilOfPartial(q: nat, n: nat, last: nat)
    requires 1 <= last <= n
    ensures (q * n + last + n - 1) / n == q + 1
  {
    var x := q * n + last + n - 1;
    assert x == (q + 1) * n + (last - 1);
    DivOfRemainder(x, n, q + 1, last - 1);
  }

  /** Division recovers the quotient of `x = k * n + r` when `0 <= r < n`. */
  lemma {:induction false} DivOfRemainder(x: int, n: int, k: int, r: int)
    requires n > 0 && 0 <= r < n && x == k * n + r
    ensures x / n == k
  {
    var d := x / n;
    assert x == d * n + x % n;
    if d > k {
      MulMonotone(d, k + 1, n);
      assert false;
    } else if d < k {
      MulMonotone(k, d + 1, n);
      assert false;
    }
  }

  lemma {:induction false} MulMonotone(a: int, b: int, n: int)
    requires a >= b && n > 0
    ensures a * n >= b * n
  {
  }

  /** Files laid out as a stream leaves them — every file but the last full,
      the last holding 1 to `n` rows — number `ceil(rows / n)`: none for no
      rows, one for 1 to `n` rows. */
  lemma {:induction false} FileCount(files: seq<ParquetFile>, n: nat)
    requires n >= 1 && AllReadable(files)
    requires forall k :: 0 <= k < |files| - 1 ==> files[k].numRows == n
    requires |files| > 0 ==> 1 <= files[|files| - 1].numRows <= n
    ensures |files| == (|AllRows(files)| + n - 1) / n
  {
    AllRowsCount(files);
    if |files| == 0 {
      DivOfRemainder(n - 1, n, 0, n - 1);
    } else {
      FullThenLast(files, n);
      CeilOfPartial(|files| - 1, n, files[|files| - 1].numRows);
    }
  }
}
