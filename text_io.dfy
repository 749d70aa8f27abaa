/**
 What `consolidate` sees of a file. A file is modelled as the characters it
 holds (decoding bytes to characters is not part of this model). Python opens
 it in text mode with universal newlines, so `Path.open().readline()` and
 `Path.read_text()` both see the text after every "\r\n" and every lone '\r'
 has been turned into '\n'; `readline()` then returns the first line with its
 terminator, or the whole text when it has no terminator.
 */
module TextIO {

  /** Universal-newline translation of a file's characters. */
  function Translate(raw: string): (text: string)
    ensures '\r' !in text
    ensures '\n' in text <==> '\n' in raw || '\r' in raw
    ensures |text| <= |raw|
    decreases |raw|
  {
    if |raw| == 0 then ""
    else if raw[0] == '\r' then
      if |raw| > 1 && raw[1] == '\n' then "\n" + Translate(raw[2..])
      else "\n" + Translate(raw[1..])
    else [raw[0]] + Translate(raw[1..])
  }

  /** The first line of an already translated text, terminator included. */
  function FirstLine(text: string): (line: string)
    ensures line <= text
    ensures '\n' !in text ==> line == text
    ensures '\n' in text ==> |line| > 0 && line[|line| - 1] == '\n' && '\n' !in line[..|line| - 1]
  {
    if |text| == 0 then ""
    else if text[0] == '\n' then "\n"
    else [text[0]] + FirstLine(text[1..])
  }

  /**
   What `readline()` returns for a file freshly opened in text mode: the start
   of the text `read_text()` gives, with no carriage return left in it.
   */
  function ReadLine(raw: string): (line: string)
    ensures line <= Translate(raw)
    ensures '\r' !in line
  {
    FirstLine(Translate(raw))
  }

  /** The line read ends in '\n' exactly when the file has a line terminator. */
  lemma ReadLineTerminated(raw: string)
    ensures '\n' in raw || '\r' in raw <==> |ReadLine(raw)| > 0 && ReadLine(raw)[|ReadLine(raw)| - 1] == '\n'
  {
    var text := Translate(raw);
    var line := FirstLine(text);
    if |line| > 0 && line[|line| - 1] == '\n' {
      assert line[|line| - 1] == text[|line| - 1];
    }
  }

  /** Text without a carriage return is delivered unchanged. */
  lemma {:induction false} TranslateWithoutCarriageReturn(raw: string)
    requires '\r' !in raw
    ensures Translate(raw) == raw
    decreases |raw|
  {
    if |raw| > 0 {
      TranslateWithoutCarriageReturn(raw[1..]);
      assert raw == [raw[0]] + raw[1..];
    }
  }

  /** A prefix free of carriage returns passes through translation as it is. */
  lemma {:induction false} TranslatePlainPrefix(prefix: string, rest: string)
    requires '\r' !in prefix
    ensures Translate(prefix + rest) == prefix + Translate(rest)
    decreases |prefix|
  {
    if |prefix| == 0 {
      assert prefix + rest == rest;
    } else {
      var text := prefix + rest;
      assert text[0] == prefix[0] && text[1..] == prefix[1..] + rest;
      TranslatePlainPrefix(prefix[1..], rest);
      assert prefix == [prefix[0]] + prefix[1..];
    }
  }

  /** The first line ends at the first terminator and nothing after it matters. */
  lemma {:induction false} FirstLineOfTerminated(line: string, rest: string)
    requires '\n' !in line
    ensures FirstLine(line + "\n" + rest) == line + "\n"
    decreases |line|
  {
    var text := line + "\n" + rest;
    if |line| == 0 {
      assert text[0] == '\n';
    } else {
      assert text[0] == line[0] && line[0] != '\n';
      assert text[1..] == line[1..] + "\n" + rest;
      assert '\n' !in line[1..] by {
        assert forall c :: c in line[1..] ==> c in line;
      }
      FirstLineOfTerminated(line[1..], rest);
      assert FirstLine(text) == [line[0]] + FirstLine(text[1..]);
      assert line + "\n" == [line[0]] + (line[1..] + "\n");
    }
  }

  /**
   A header line reads the same whichever terminator the file uses: "\r\n"
   (what Python's csv writer emits), '\n' or a lone '\r'. What follows the
   terminator is never part of it.
   */
  lemma HeaderLineTerminators(line: string, rest: string)
    requires '\r' !in line && '\n' !in line
    ensures ReadLine(line + "\r\n" + rest) == line + "\n"
    ensures ReadLine(line + "\n" + rest) == line + "\n"
    ensures ReadLine(line + "\r" + rest) == line + "\n"
  {
    if |rest| > 0 && rest[0] == '\n' {
      TerminatedHeaderLine(line, "\r\n", rest[1..]);
      assert "\r" + rest == "\r\n" + rest[1..];
      assert line + "\r" + rest == line + "\r\n" + rest[1..];
    } else {
      TerminatedHeaderLine(line, "\r", rest);
    }
    TerminatedHeaderLine(line, "\r\n", rest);
    TerminatedHeaderLine(line, "\n", rest);
  }

  /**
   Each terminator, "\r\n", '\n' or a lone '\r' not followed by '\n', becomes
   exactly one '\n', and the text after it is translated in turn. With
   `TranslatePlainPrefix` this fixes `Translate` on every input.
   */
  lemma TranslateTerminator(terminator: string, rest: string)
    requires terminator == "\r\n" || terminator == "\n" || (terminator == "\r" && (|rest| == 0 || rest[0] != '\n'))
    ensures Translate(terminator + rest) == "\n" + Translate(rest)
  {
    assert (terminator + rest)[|terminator|..] == rest;
  }

  /** A line ended by one terminator, whatever follows it, reads as the line and '\n'. */
  lemma TerminatedHeaderLine(line: string, terminator: string, rest: string)
    requires '\r' !in line && '\n' !in line
    requires terminator == "\r\n" || terminator == "\n" || (terminator == "\r" && (|rest| == 0 || rest[0] != '\n'))
    ensures ReadLine(line + terminator + rest) == line + "\n"
  {
    TranslatePlainPrefix(line, terminator + rest);
    assert line + terminator + rest == line + (terminator + rest);
    TranslateTerminator(terminator, rest);
    assert line + ("\n" + Translate(rest)) == line + "\n" + Translate(rest);
    FirstLineOfTerminated(line, Translate(rest));
  }

  /** A file whose text has no terminator reads as one line: all of it. */
  lemma UnterminatedLine(line: string)
    requires '\r' !in line && '\n' !in line
    ensures ReadLine(line) == line
  {
    TranslateWithoutCarriageReturn(line);
  }
}
