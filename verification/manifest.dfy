/** Reading the manifest: a newline-delimited list of container paths.
    The two masters that read one (batch_hit_finder.py and
    util/batch_peak_powder.py) remove the line terminator differently. */
module Manifest {
  import opened Common

  /** Length of the first line of a non-empty text, its newline included. */
  function FirstLineLength(text: string): (n: nat)
    requires |text| > 0
    ensures 1 <= n <= |text|
    ensures forall j :: 0 <= j < n - 1 ==> text[j] != '\n'
    ensures n < |text| ==> text[n - 1] == '\n'
  {
    if text[0] == '\n' || |text| == 1 then 1 else 1 + FirstLineLength(text[1..])
  }

  /** A list of lines as `f.readlines()` returns them: none is empty, each
      keeps its newline, only the last one may lack it, and no line holds a
      newline before its end. */
  predicate Lines(lines: seq<string>)
  {
    && (forall i :: 0 <= i < |lines| ==> |lines[i]| > 0)
    && (forall i :: 0 <= i < |lines| - 1 ==> lines[i][|lines[i]| - 1] == '\n')
    && (forall i, j :: 0 <= i < |lines| && 0 <= j < |lines[i]| - 1 ==> lines[i][j] != '\n')
  }

  /** What text-mode `open()` hands to `readlines()`: universal newlines
      turn every "\r\n" and every lone '\r' into '\n'. `raw` is the file
      already decoded to characters; decoding is left out. */
  function Translate(raw: string): string
    decreases |raw|
  {
    if |raw| == 0 then []
    else if raw[0] == '\r' then
      if |raw| > 1 && raw[1] == '\n' then "\n" + Translate(raw[2..]) else "\n" + Translate(raw[1..])
    else [raw[0]] + Translate(raw[1..])
  }

  /** Translation leaves no carriage return, and leaves a text without
      one unchanged. */
  lemma {:induction false} TranslateRemovesCr(raw: string)
    ensures '\r' !in Translate(raw)
    ensures '\r' !in raw ==> Translate(raw) == raw
    decreases |raw|
  {
    if |raw| > 0 {
      if raw[0] == '\r' && |raw| > 1 && raw[1] == '\n' {
        TranslateRemovesCr(raw[2..]);
      } else {
        TranslateRemovesCr(raw[1..]);
        if raw[0] != '\r' {
          assert raw == [raw[0]] + raw[1..];
        }
      }
    }
  }

  /** Translation works piece by piece, unless a piece ending in '\r' is
      followed by one starting with '\n'. */
  lemma {:induction false} TranslateAppend(a: string, b: string)
    requires |a| == 0 || a[|a| - 1] != '\r'
    ensures Translate(a + b) == Translate(a) + Translate(b)
    decreases |a|
  {
    if |a| > 0 {
      var ab := a + b;
      assert ab[0] == a[0];
      if a[0] == '\r' {
        assert |a| > 1 && ab[1] == a[1];
        if a[1] == '\n' {
          assert ab[2..] == a[2..] + b;
          TranslateAppend(a[2..], b);
          assert Translate(ab) == "\n" + Translate(a[2..] + b);
          assert Translate(a) == "\n" + Translate(a[2..]);
        } else {
          assert ab[1..] == a[1..] + b;
          TranslateAppend(a[1..], b);
          assert Translate(ab) == "\n" + Translate(a[1..] + b);
          assert Translate(a) == "\n" + Translate(a[1..]);
        }
      } else {
        assert ab[1..] == a[1..] + b;
        TranslateAppend(a[1..], b);
        assert Translate(ab) == [a[0]] + Translate(a[1..] + b);
        assert Translate(a) == [a[0]] + Translate(a[1..]);
      }
    } else {
      assert a + b == b;
    }
  }

  /** Paths written one per line with Windows line endings. */
  function CrlfLines(files: seq<string>): string
  {
    if |files| == 0 then [] else files[0] + "\r\n" + CrlfLines(files[1..])
  }

  /** A manifest written with "\r\n" line endings reaches `readlines()` as
      the same paths written with '\n' line endings. */
  lemma {:induction false} CrlfReadsAsLf(files: seq<string>)
    requires forall i :: 0 <= i < |files| ==> '\r' !in files[i]
    ensures Translate(CrlfLines(files)) == Unlines(files, true)
    decreases |files|
  {
    if |files| > 0 {
      var f, rest := files[0], CrlfLines(files[1..]);
      CrlfReadsAsLf(files[1..]);
      TranslateRemovesCr(f);
      assert "\r\n" + rest == ['\r', '\n'] + rest;
      assert ("\r\n" + rest)[2..] == rest;
      assert Translate("\r\n" + rest) == "\n" + Translate(rest);
      TranslateAppend(f, "\r\n" + rest);
      assert files[0] + "\r\n" + rest == f + ("\r\n" + rest);
      if |files| == 1 {
        assert rest == [];
      }
    }
  }

  /** Python's `f.readlines()` on the text `open()` produced (see
      `Translate`): the text cut after every newline. */
  function ReadLines(text: string): (lines: seq<string>)
    ensures Concat(lines) == text
    ensures Lines(lines)
    decreases |text|
  {
    if |text| == 0 then []
    else
      var n := FirstLineLength(text);
      var rest := ReadLines(text[n..]);
      ConcatCons(text[..n], rest);
      assert text == text[..n] + text[n..];
      LinesCons(text[..n], rest);
      [text[..n]] + rest
  }

  /** A first line that ends in its only newline, followed by lines, is a
      list of lines. */
  lemma LinesCons(line: string, rest: seq<string>)
    requires |line| > 0
    requires forall j :: 0 <= j < |line| - 1 ==> line[j] != '\n'
    requires |rest| > 0 ==> line[|line| - 1] == '\n'
    requires Lines(rest)
    ensures Lines([line] + rest)
  {
    var lines := [line] + rest;
    assert forall i :: 1 <= i < |lines| ==> lines[i] == rest[i - 1];
  }

  predicate EndsWithNewline(s: string)
  {
    |s| > 0 && s[|s| - 1] == '\n'
  }

  /** util/batch_peak_powder.py: the last character is dropped only when it
      is a newline. `f[-1]` fails on an empty string, which readlines never
      produces. */
  function StripNewline(line: string): string
    requires |line| > 0
  {
    if line[|line| - 1] == '\n' then line[..|line| - 1] else line
  }

  /** batch_hit_finder.py: `f[:-1]`, the last character is dropped whatever
      it is (and an empty string stays empty). */
  function ChopLast(line: string): string
  {
    if |line| == 0 then line else line[..|line| - 1]
  }

  function StripEach(lines: seq<string>): (files: seq<string>)
    requires forall i :: 0 <= i < |lines| ==> |lines[i]| > 0
    ensures |files| == |lines|
  {
    if |lines| == 0 then [] else [StripNewline(lines[0])] + StripEach(lines[1..])
  }

  function ChopEach(lines: seq<string>): (files: seq<string>)
    ensures |files| == |lines|
  {
    if |lines| == 0 then [] else [ChopLast(lines[0])] + ChopEach(lines[1..])
  }

  /** The container paths util/batch_peak_powder.py reads from a manifest
      whose newlines `open()` has translated: one per line, none of them
      holding a newline. */
  function PowderFiles(text: string): (files: seq<string>)
    ensures |files| == |ReadLines(text)|
    ensures forall i :: 0 <= i < |files| ==> '\n' !in files[i]
  {
    var lines := ReadLines(text);
    StripEachNoNewline(lines);
    StripEach(lines)
  }

  lemma {:induction false} StripEachNoNewline(lines: seq<string>)
    requires forall i :: 0 <= i < |lines| ==> |lines[i]| > 0
    requires forall i, j :: 0 <= i < |lines| && 0 <= j < |lines[i]| - 1 ==> lines[i][j] != '\n'
    ensures forall i :: 0 <= i < |lines| ==> '\n' !in StripEach(lines)[i]
    decreases |lines|
  {
    if |lines| > 0 {
      StripEachNoNewline(lines[1..]);
      var s := StripNewline(lines[0]);
      assert forall j :: 0 <= j < |s| ==> s[j] == lines[0][j];
      forall i | 0 <= i < |lines|
        ensures '\n' !in StripEach(lines)[i]
      {
        if i > 0 {
          assert StripEach(lines)[i] == StripEach(lines[1..])[i - 1];
          assert lines[1..][i - 1] == lines[i];
        }
      }
    }
  }

  /** The container paths batch_hit_finder.py reads from a manifest whose
      newlines `open()` has translated. */
  function HitFinderFiles(text: string): (files: seq<string>)
    ensures |files| == |ReadLines(text)|
  {
    ChopEach(ReadLines(text))
  }

  /** Writing paths back one per line; the last one is followed by a newline
      only when `finalNewline` holds. */
  function Unlines(files: seq<string>, finalNewline: bool): string
  {
    if |files| == 0 then []
    else if |files| == 1 then files[0] + (if finalNewline then "\n" else "")
    else files[0] + "\n" + Unlines(files[1..], finalNewline)
  }

  lemma {:induction false} UnlinesStripEach(lines: seq<string>)
    requires Lines(lines)
    ensures Unlines(StripEach(lines), |lines| > 0 && EndsWithNewline(lines[|lines| - 1])) == Concat(lines)
    decreases |lines|
  {
    if |lines| > 0 {
      ConcatCons(lines[0], lines[1..]);
      assert lines == [lines[0]] + lines[1..];
      if |lines| > 1 {
        UnlinesStripEach(lines[1..]);
        assert StripNewline(lines[0]) + "\n" == lines[0];
      }
    }
  }

  /** The powder manifest reading loses nothing: putting the newlines back
      reproduces the manifest text exactly. */
  lemma PowderFilesRoundTrip(text: string)
    ensures Unlines(PowderFiles(text), EndsWithNewline(text)) == text
  {
    var lines := ReadLines(text);
    UnlinesStripEach(lines);
    if |lines| > 0 {
      var last := lines[|lines| - 1];
      ConcatSnoc(lines[..|lines| - 1], last);
      assert lines == lines[..|lines| - 1] + [last];
      assert text == Concat(lines[..|lines| - 1]) + last;
      assert EndsWithNewline(text) == EndsWithNewline(last);
    }
  }

  lemma {:induction false} ChopStripAgreeIff(lines: seq<string>)
    requires Lines(lines)
    ensures ChopEach(lines) == StripEach(lines) <==> (|lines| == 0 || EndsWithNewline(lines[|lines| - 1]))
    decreases |lines|
  {
    if |lines| > 0 {
      var l := lines[0];
      if |lines| == 1 {
        if !EndsWithNewline(l) {
          assert |ChopLast(l)| != |StripNewline(l)|;
          assert ChopEach(lines)[0] != StripEach(lines)[0];
        }
      } else {
        assert ChopLast(l) == StripNewline(l);
        ChopStripAgreeIff(lines[1..]);
        if ChopEach(lines) == StripEach(lines) {
          assert ChopEach(lines)[1..] == ChopEach(lines[1..]);
          assert StripEach(lines)[1..] == StripEach(lines[1..]);
        }
      }
    }
  }

  /** The two readings agree exactly when the manifest is empty or ends with
      a newline; otherwise the hit finder's last path loses its last character. */
  lemma ReadingsAgreeIff(text: string)
    ensures HitFinderFiles(text) == PowderFiles(text) <==> (|text| == 0 || EndsWithNewline(text))
  {
    var lines := ReadLines(text);
    ChopStripAgreeIff(lines);
    if |lines| > 0 {
      var last := lines[|lines| - 1];
      ConcatSnoc(lines[..|lines| - 1], last);
      assert lines == lines[..|lines| - 1] + [last];
      assert text == Concat(lines[..|lines| - 1]) + last;
      assert EndsWithNewline(text) == EndsWithNewline(last);
    } else {
      assert text == Concat(lines) == [];
    }
  }

  /** Line by line, each reading strips the line in its place. */
  lemma {:induction false} EachAt(lines: seq<string>, i: nat)
    requires forall k :: 0 <= k < |lines| ==> |lines[k]| > 0
    requires i < |lines|
    ensures ChopEach(lines)[i] == ChopLast(lines[i])
    ensures StripEach(lines)[i] == StripNewline(lines[i])
    decreases i
  {
    if i > 0 {
      assert lines[1..][i - 1] == lines[i];
      EachAt(lines[1..], i - 1);
    }
  }

  /** Path by path, the hit finder reads what the powder master reads,
      except the last path of a manifest without a final newline, which
      loses its last character. */
  lemma HitFinderPaths(text: string)
    ensures var h, p := HitFinderFiles(text), PowderFiles(text);
      && |h| == |p|
      && (forall i :: 0 <= i < |p| - 1 ==> h[i] == p[i])
      && (|p| > 0 ==> h[|p| - 1] == if EndsWithNewline(text) then p[|p| - 1] else ChopLast(p[|p| - 1]))
  {
    var lines := ReadLines(text);
    ReadingsBeforeLast(lines);
    if |lines| > 0 {
      var last := lines[|lines| - 1];
      EachAt(lines, |lines| - 1);
      ConcatSnoc(lines[..|lines| - 1], last);
      assert lines == lines[..|lines| - 1] + [last];
      assert EndsWithNewline(text) == EndsWithNewline(last);
    }
  }

  /** Every line but the last ends in its newline, so both readings agree
      on it. */
  lemma ReadingsBeforeLast(lines: seq<string>)
    requires Lines(lines)
    ensures forall i :: 0 <= i < |lines| - 1 ==> ChopEach(lines)[i] == StripEach(lines)[i]
  {
    forall i | 0 <= i < |lines| - 1
      ensures ChopEach(lines)[i] == StripEach(lines)[i]
    {
      EachAt(lines, i);
      assert EndsWithNewline(lines[i]);
    }
  }

  /** A manifest whose last line has no newline: the hit finder reads the
      path "a.h" where the file is "a.h5". */
  lemma HitFinderTruncatesLastPath()
    ensures HitFinderFiles("a.h5") == ["a.h"]
    ensures PowderFiles("a.h5") == ["a.h5"]
  {
    var t := "a.h5";
    assert t[1..] == ".h5" && t[1..][1..] == "h5" && t[1..][1..][1..] == "5";
    assert FirstLineLength("5") == 1;
    assert FirstLineLength("h5") == 2;
    assert FirstLineLength(".h5") == 3;
    assert FirstLineLength(t) == 4;
    assert t[..4] == t && t[4..] == "";
    assert ReadLines(t) == [t];
    assert ChopLast(t) == "a.h";
  }

  /** A path without a newline, followed by one, is a single line. */
  lemma {:induction false} SingleLine(l: string)
    requires '\n' !in l
    ensures FirstLineLength(l + "\n") == |l| + 1
    ensures ReadLines(l + "\n") == [l + "\n"]
    decreases |l|
  {
    var t := l + "\n";
    if |l| > 0 {
      assert t[1..] == l[1..] + "\n";
      SingleLine(l[1..]);
    }
    assert t[|l| + 1..] == [] && t[..|l| + 1] == t;
    assert ReadLines(t[|l| + 1..]) == [];
  }

  /** The manifest `a.h5` with a Windows line ending: after translation,
      both masters read the path `a.h5`. */
  lemma CrlfManifest()
    ensures Translate("a.h5\r\n") == "a.h5\n"
    ensures HitFinderFiles(Translate("a.h5\r\n")) == ["a.h5"]
    ensures PowderFiles(Translate("a.h5\r\n")) == ["a.h5"]
  {
    assert CrlfLines(["a.h5"]) == "a.h5\r\n" by {
      assert ["a.h5"][1..] == [];
    }
    CrlfReadsAsLf(["a.h5"]);
    SingleLine("a.h5");
    var t := "a.h5\n";
    assert ChopLast(t) == "a.h5";
    assert StripNewline(t) == "a.h5";
  }
}
