/**
 `consolidate(*file_paths)` from app.py, with each path replaced by the
 characters of the file it names. It reads the first line of every file,
 fails with a ValueError when those lines are not all the same string, and
 otherwise returns the first file's whole text as `read_text()` delivers it,
 with its line endings turned into '\n'; called with no files it
 passes the header check and then fails on `file_paths[0]` with an IndexError.
 */
module Consolidation {
  import opened TextIO

  const MismatchMessage := "Header mismatch across files"

  /** The two exceptions `consolidate` can end in. */
  datatype Error = ValueError(message: string) | IndexError

  datatype Result<T> = Success(value: T) | Failure(error: Error)

  /**
   `set(headers)`: the distinct first lines of the files. It holds every
   file's first line and nothing else, is empty exactly when no file is given, and has at most
   as many elements as there are files.
   */
  function Headers(files: seq<string>): (hs: set<string>)
    ensures forall i :: 0 <= i < |files| ==> ReadLine(files[i]) in hs
    ensures forall h :: h in hs ==> exists i :: 0 <= i < |files| && h == ReadLine(files[i])
    ensures hs == {} <==> |files| == 0
    ensures |hs| <= |files|
  {
    DistinctFirstLinesAtMost(files, |files|);
    var hs := set i | 0 <= i < |files| :: ReadLine(files[i]);
    assert |files| > 0 ==> ReadLine(files[0]) in hs;
    hs
  }

  /** Collecting the first lines of the first k files gives at most k distinct lines. */
  lemma {:induction false} DistinctFirstLinesAtMost(files: seq<string>, k: nat)
    requires k <= |files|
    ensures |set i | 0 <= i < k :: ReadLine(files[i])| <= k
  {
    if k > 0 {
      DistinctFirstLinesAtMost(files, k - 1);
      var before := set i | 0 <= i < k - 1 :: ReadLine(files[i]);
      assert (set i | 0 <= i < k :: ReadLine(files[i])) == before + {ReadLine(files[k - 1])};
    }
  }

  /** Some two of the files start with different lines. */
  predicate HeadersDiffer(files: seq<string>)
  {
    exists i, j :: 0 <= i < |files| && 0 <= j < |files| && ReadLine(files[i]) != ReadLine(files[j])
  }

  function Consolidate(files: seq<string>): (r: Result<string>)
    ensures r.Success? ==> |files| > 0 && r.value == Translate(files[0])
    ensures r.Success? ==> ReadLine(files[0]) <= r.value
    ensures r == Failure(IndexError) <==> |files| == 0
  {
    if |Headers(files)| > 1 then Failure(ValueError(MismatchMessage))
    else if |files| == 0 then
      assert Headers(files) == {};
      Failure(IndexError)
    else Success(Translate(files[0]))
  }

  /** A set has more than one element exactly when it holds two different ones. */
  lemma MoreThanOne<T>(s: set<T>)
    ensures |s| > 1 <==> exists a, b :: a in s && b in s && a != b
  {
    if |s| > 1 {
      var a :| a in s;
      assert |s - {a}| == |s| - 1;
      var b :| b in s - {a};
      assert a in s && b in s && a != b;
    }
    if exists a, b :: a in s && b in s && a != b {
      var a, b :| a in s && b in s && a != b;
      assert b in s - {a};
      assert |s - {a}| == |s| - 1;
    }
  }

  /** `consolidate` raises "Header mismatch across files" exactly when two files' first lines differ. */
  lemma MismatchIffHeadersDiffer(files: seq<string>)
    ensures Consolidate(files) == Failure(ValueError(MismatchMessage)) <==> HeadersDiffer(files)
  {
    var hs := Headers(files);
    MoreThanOne(hs);
    if HeadersDiffer(files) {
      var i, j :| 0 <= i < |files| && 0 <= j < |files| && ReadLine(files[i]) != ReadLine(files[j]);
      assert ReadLine(files[i]) in hs && ReadLine(files[j]) in hs;
    }
  }

  /**
   `consolidate` succeeds exactly when there is a file and every file starts
   with the first file's line, and then returns the first file's translated text.
   */
  lemma SuccessIffHeadersAgree(files: seq<string>)
    ensures Consolidate(files).Success? <==>
      |files| > 0 && forall i :: 0 <= i < |files| ==> ReadLine(files[i]) == ReadLine(files[0])
    ensures Consolidate(files).Success? ==> Consolidate(files).value == Translate(files[0])
  {
    MismatchIffHeadersDiffer(files);
    if |files| > 0 && forall i :: 0 <= i < |files| ==> ReadLine(files[i]) == ReadLine(files[0]) {
      assert !HeadersDiffer(files);
    } else if |files| > 0 {
      var i :| 0 <= i < |files| && ReadLine(files[i]) != ReadLine(files[0]);
      assert HeadersDiffer(files);
    }
  }

  /** One file can never mismatch: its text comes back as read. */
  lemma SingleFile(file: string)
    ensures Consolidate([file]) == Success(Translate(file))
  {
    var files := [file];
    assert ReadLine(files[0]) in Headers(files);
    assert Headers(files) == {ReadLine(file)};
  }

  /**
   The decision depends only on which files are given: reordering them or
   repeating one fails in the same way or succeeds likewise.
   */
  lemma SameFilesSameDecision(a: seq<string>, b: seq<string>)
    requires forall f :: f in a <==> f in b
    ensures Headers(a) == Headers(b)
    ensures Consolidate(a).Failure? ==> Consolidate(b) == Consolidate(a)
    ensures Consolidate(a).Success? <==> Consolidate(b).Success?
  {
    forall h | h in Headers(a) ensures h in Headers(b) {
      var i :| 0 <= i < |a| && h == ReadLine(a[i]);
      assert a[i] in b;
      var j :| 0 <= j < |b| && b[j] == a[i];
    }
    forall h | h in Headers(b) ensures h in Headers(a) {
      var j :| 0 <= j < |b| && h == ReadLine(b[j]);
      assert b[j] in a;
      var i :| 0 <= i < |a| && a[i] == b[j];
    }
  }

  /**
   Of every file after the first only its first line is read: replacing the
   later files by others with the same first lines leaves the result as it was.
   */
  lemma LaterContentIgnored(first: string, rest: seq<string>, other: seq<string>)
    requires |rest| == |other|
    requires forall i :: 0 <= i < |rest| ==> ReadLine(rest[i]) == ReadLine(other[i])
    ensures Consolidate([first] + rest) == Consolidate([first] + other)
  {
    var a, b := [first] + rest, [first] + other;
    assert forall i :: 0 <= i < |a| ==> ReadLine(a[i]) == ReadLine(b[i]) by {
      forall i | 0 <= i < |a| ensures ReadLine(a[i]) == ReadLine(b[i]) {
        if i > 0 {
          assert a[i] == rest[i - 1] && b[i] == other[i - 1];
        }
      }
    }
    assert Headers(a) == Headers(b) by {
      forall h | h in Headers(a) ensures h in Headers(b) {
        var i :| 0 <= i < |a| && h == ReadLine(a[i]);
      }
      forall h | h in Headers(b) ensures h in Headers(a) {
        var i :| 0 <= i < |b| && h == ReadLine(b[i]);
      }
    }
  }

  /** Two files whose header lines differ, in any way, mismatch. */
  lemma DifferentHeaderLinesMismatch(line: string, otherLine: string, rows: string, otherRows: string)
    requires '\r' !in line && '\n' !in line && '\r' !in otherLine && '\n' !in otherLine
    requires line != otherLine
    ensures Consolidate([line + "\r\n" + rows, otherLine + "\r\n" + otherRows])
         == Failure(ValueError(MismatchMessage))
  {
    var files := [line + "\r\n" + rows, otherLine + "\r\n" + otherRows];
    TerminatedHeaderLine(line, "\r\n", rows);
    TerminatedHeaderLine(otherLine, "\r\n", otherRows);
    assert (line + "\n")[..|line|] == line && (otherLine + "\n")[..|otherLine|] == otherLine;
    assert ReadLine(files[0]) != ReadLine(files[1]);
    MismatchIffHeadersDiffer(files);
  }

  /**
   First lines are compared as whole strings, case included: the fixture
   header "Date,desc,amount" of tests/conftest.py and "date,desc,amount" of
   tests/test_main.py do not go together.
   */
  lemma CaseSensitiveHeaders(rows: string, otherRows: string)
    ensures Consolidate(["Date,desc,amount\r\n" + rows, "date,desc,amount\r\n" + otherRows])
         == Failure(ValueError(MismatchMessage))
  {
    var upper, lower := "Date,desc,amount", "date,desc,amount";
    assert upper[0] != lower[0];
    DifferentHeaderLinesMismatch(upper, lower, rows, otherRows);
    assert upper + "\r\n" + rows == "Date,desc,amount\r\n" + rows;
    assert lower + "\r\n" + otherRows == "date,desc,amount\r\n" + otherRows;
  }

  /**
   The terminator is part of the compared line: a file holding only its
   header, with no line break after it, does not go with a file whose header
   line is the same but ends in a line break.
   */
  lemma UnterminatedHeaderMismatches(line: string, rest: string)
    requires '\r' !in line && '\n' !in line
    ensures Consolidate([line, line + "\n" + rest]) == Failure(ValueError(MismatchMessage))
  {
    var files := [line, line + "\n" + rest];
    UnterminatedLine(line);
    HeaderLineTerminators(line, rest);
    assert ReadLine(files[0]) != ReadLine(files[1]);
    MismatchIffHeadersDiffer(files);
  }

  /**
   Line-ending style does not count: files whose header lines differ only in
   ending with "\r\n" or '\n' pass the check, and the first file's text comes
   back with its line endings translated.
   */
  lemma LineEndingStyleIgnored(line: string, rows: string, otherRows: string)
    requires '\r' !in line && '\n' !in line
    ensures Consolidate([line + "\r\n" + rows, line + "\n" + otherRows])
         == Success(Translate(line + "\r\n" + rows))
  {
    var files := [line + "\r\n" + rows, line + "\n" + otherRows];
    TerminatedHeaderLine(line, "\r\n", rows);
    TerminatedHeaderLine(line, "\n", otherRows);
    assert forall i :: 0 <= i < |files| ==> ReadLine(files[i]) == ReadLine(files[0]);
    SuccessIffHeadersAgree(files);
  }
}
