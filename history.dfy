/** The chunking rule of `HistoryToFiles`: a counter `k` of records in the
    current file and a file number `t`; a new file is opened when `k` is 0 and
    the file is closed (k reset, t advanced) once it holds `records` lines. */
module History {
  import opened Types
  import opened Codec

  /** The pages the counters produce, one record at a time: the next record
      opens a new page when there is none yet or the current one is full. */
  function Paginate<T>(xs: seq<T>, records: int): (pages: seq<seq<T>>)
    ensures |xs| == 0 <==> |pages| == 0
  {
    if |xs| == 0 then [] else NextPage(Paginate(xs[..|xs| - 1], records), xs[|xs| - 1], records)
  }

  /** Where the next record goes: a new page, or the end of the current one. */
  function NextPage<T>(prev: seq<seq<T>>, x: T, records: int): (pages: seq<seq<T>>)
    ensures |pages| > 0
    ensures |pages| == |prev| || |pages| == |prev| + 1
    ensures |prev| > 0 ==> pages[..|prev| - 1] == prev[..|prev| - 1]
    ensures |pages[|pages| - 1]| > 0 && pages[|pages| - 1][|pages[|pages| - 1]| - 1] == x
    ensures |pages| == |prev| + 1 ==> pages == prev + [[x]]
    ensures |pages| == |prev| ==> pages[|prev| - 1] == prev[|prev| - 1] + [x]
  {
    if |prev| == 0 || |prev[|prev| - 1]| == records then prev + [[x]]
    else prev[..|prev| - 1] + [prev[|prev| - 1] + [x]]
  }

  function Flatten<T>(pages: seq<seq<T>>): seq<T>
  {
    if |pages| == 0 then [] else Flatten(pages[..|pages| - 1]) + pages[|pages| - 1]
  }

  /** Every page but the last holds exactly `records` items; the last holds
      between 1 and `records`. */
  predicate WellPaged<T>(pages: seq<seq<T>>, records: int)
  {
    && (forall j :: 0 <= j < |pages| - 1 ==> |pages[j]| == records)
    && (|pages| > 0 ==> 1 <= |pages[|pages| - 1]| <= records)
  }

  /** Paging neither drops, duplicates nor reorders records. */
  lemma {:induction false} PaginateFlatten<T>(xs: seq<T>, records: int)
    ensures Flatten(Paginate(xs, records)) == xs
    decreases |xs|
  {
    if |xs| != 0 {
      var init := xs[..|xs| - 1];
      var prev := Paginate(init, records);
      var x := xs[|xs| - 1];
      PaginateFlatten(init, records);
      var pages := Paginate(xs, records);
      if |prev| == 0 || |prev[|prev| - 1]| == records {
        assert pages[..|pages| - 1] == prev;
      } else {
        var front := prev[..|prev| - 1];
        assert pages[..|pages| - 1] == front;
        assert prev[..|prev| - 1] == front;
        assert Flatten(prev) == Flatten(front) + prev[|prev| - 1];
      }
      assert xs == init + [x];
    }
  }

  /** With `records >= 1`, pages are full except possibly the last one. */
  lemma {:induction false} PaginateSizes<T>(xs: seq<T>, records: int)
    requires records >= 1
    ensures WellPaged(Paginate(xs, records), records)
    decreases |xs|
  {
    if |xs| != 0 {
      PaginateSizes(xs[..|xs| - 1], records);
    }
  }

  /** The number of pages `n` is the ceiling of `|xs| / records`, the one `n`
      with `(n - 1) * records < |xs| <= n * records`. */
  lemma PaginateCount<T>(xs: seq<T>, records: int)
    requires records >= 1
    ensures var n := |Paginate(xs, records)|;
            (n - 1) * records < |xs| <= n * records
  {
    var pages := Paginate(xs, records);
    PaginateSizes(xs, records);
    PaginateFlatten(xs, records);
    var n := |pages|;
    if n > 0 {
      FlattenLength(pages, records);
      CeilingBounds(n, records, |pages[n - 1]|);
    }
  }

  lemma CeilingBounds(n: int, records: int, last: int)
    requires 1 <= last <= records
    ensures (n - 1) * records < (n - 1) * records + last <= n * records
  {
    assert n * records == (n - 1) * records + records;
  }

  lemma {:induction false} FlattenLength<T>(pages: seq<seq<T>>, records: int)
    requires |pages| > 0
    requires forall j :: 0 <= j < |pages| - 1 ==> |pages[j]| == records
    ensures |Flatten(pages)| == (|pages| - 1) * records + |pages[|pages| - 1]|
    decreases |pages|
  {
    if |pages| > 1 {
      FlattenLength(pages[..|pages| - 1], records);
    } else {
      assert Flatten(pages[..0]) == [];
    }
  }

  /** With `records <= 0` the page is never full: everything is one page. */
  lemma {:induction false} PaginateUnbounded<T>(xs: seq<T>, records: int)
    requires records <= 0 && |xs| > 0
    ensures Paginate(xs, records) == [xs]
    decreases |xs|
  {
    var init := xs[..|xs| - 1];
    assert init + [xs[|xs| - 1]] == xs;
    if |xs| > 1 {
      PaginateUnbounded(init, records);
      assert Paginate(init, records) == [init];
    } else {
      assert Paginate(init, records) == [];
    }
  }

  /** A dump file: its name within the directory, and its content. */
  datatype DumpFile = DumpFile(name: string, content: string)

  function HistoryText(ps: seq<Payment>): string
  {
    Text(ps, PaymentToString, '\n')
  }

  /** `payments<t>.dump` for the `t`-th page, counting from 1. */
  function PageFiles(pages: seq<seq<Payment>>): (files: seq<DumpFile>)
    ensures |files| == |pages|
  {
    seq(|pages|, j requires 0 <= j < |pages| =>
      DumpFile("payments" + Itoa(j + 1) + ".dump", HistoryText(pages[j])))
  }

  /** A record that opens a new page opens a new file. */
  lemma PageFilesNewPage(pages: seq<seq<Payment>>, x: Payment)
    ensures PageFiles(pages + [[x]])
         == PageFiles(pages) + [DumpFile("payments" + Itoa(|pages| + 1) + ".dump", "" + PaymentToString(x) + "\n")]
  {
    var xs := [x];
    assert xs[..0] == [] && xs[0] == x;
    assert Text(xs, PaymentToString, '\n') == Text(xs[..0], PaymentToString, '\n') + PaymentToString(x) + ['\n'];
    assert Text(xs[..0], PaymentToString, '\n') == "";
  }

  /** A record added to the open page is appended to the open file. */
  lemma PageFilesExtend(pages: seq<seq<Payment>>, x: Payment)
    requires |pages| > 0
    ensures var n := |pages| - 1;
      var last := PageFiles(pages)[n];
      PageFiles(pages[..n] + [pages[n] + [x]])
        == PageFiles(pages)[n := last.(content := last.content + PaymentToString(x) + "\n")]
  {
    var n := |pages| - 1;
    assert (pages[n] + [x])[..|pages[n]|] == pages[n];
  }

  /** One step of the writer: it opens file `t` when `k` is 0, then appends
      the record's line to the last file; the files stay those of the pages. */
  lemma PageFilesStep(pages: seq<seq<Payment>>, records: int, k: int, t: int, files: seq<DumpFile>, x: Payment)
    requires Counters(pages, records, k, t) && files == PageFiles(pages)
    ensures var current := (if k == 0 then files + [DumpFile("payments" + Itoa(t) + ".dump", "")] else files);
      |current| > 0
      && (var last := current[|current| - 1];
          current[|current| - 1 := last.(content := last.content + PaymentToString(x) + "\n")]
            == PageFiles(NextPage(pages, x, records)))
  {
    CountersStep(pages, records, k, t, x);
    if k == 0 {
      PageFilesNewPage(pages, x);
      var name := "payments" + Itoa(t) + ".dump";
      var current := files + [DumpFile(name, "")];
      assert current[|current| - 1 := DumpFile(name, "" + PaymentToString(x) + "\n")]
          == files + [DumpFile(name, "" + PaymentToString(x) + "\n")];
    } else {
      PageFilesExtend(pages, x);
    }
  }

  /** The counters `k` (lines in the open file, 0 when none is open) and `t`
      (the open or next file's number) for the pages written so far. */
  predicate Counters<T>(pages: seq<seq<T>>, records: int, k: int, t: int)
  {
    if |pages| == 0 then k == 0 && t == 1
    else if |pages[|pages| - 1]| == 0 then false
    else if |pages[|pages| - 1]| == records then k == 0 && t == |pages| + 1
    else k == |pages[|pages| - 1]| && t == |pages|
  }

  /** Each record opens file `t` exactly when `k` is 0, and the counters'
      update (`k++`, then reset and `t++` on a full file) tracks the pages. */
  lemma CountersStep<T>(pages: seq<seq<T>>, records: int, k: int, t: int, x: T)
    requires Counters(pages, records, k, t)
    ensures (k == 0) == (|pages| == 0 || |pages[|pages| - 1]| == records)
    ensures k == 0 ==> t == |pages| + 1
    ensures k != 0 ==> t == |pages|
    ensures var k' := k + 1;
      Counters(NextPage(pages, x, records), records, if k' == records then 0 else k', if k' == records then t + 1 else t)
  {
  }
}
