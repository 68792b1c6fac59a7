/**
 * The id in the name of the output file mem-info-<id>.txt, taken from the
 * first argument of Main.main: the recording's path as given, directories
 * included.
 */
module OutputId {
  import opened Wrappers
  import opened Text
  import opened Numbers

  /**
   * Why no id could be derived: substring's bounds were out of order
   * (StringIndexOutOfBoundsException) or the text is no long
   * (NumberFormatException). Either ends the run.
   */
  datatype IdError = BadRange | NotANumber

  /**
   * 0 unless the name holds both '-' and '.'; then the number written between
   * the first '-' and the first '.'.
   */
  function DeriveId(file: string): (r: Result<int, IdError>)
    ensures '-' !in file || '.' !in file ==> r == Ok(0)
    ensures r.Ok? ==> LongMin <= r.value <= LongMax
  {
    var dash, dot := IndexOf(file, '-'), IndexOf(file, '.');
    if dash == -1 || dot == -1 then Ok(0)
    else if dash + 1 > dot then Err(BadRange)
    else
      match ParseLong(file[dash + 1..dot])
      case None => Err(NotANumber)
      case Some(id) => Ok(id)
  }

  /**
   * In a name <prefix>-<text>.<suffix> whose prefix holds neither '-' nor '.'
   * and whose text holds no '.', the id is what Long.valueOf makes of the text.
   */
  lemma DeriveIdBetween(prefix: string, text: string, suffix: string)
    requires '-' !in prefix && '.' !in prefix && '.' !in text
    ensures DeriveId(prefix + "-" + text + "." + suffix)
         == match ParseLong(text) case None => Err(NotANumber) case Some(v) => Ok(v)
  {
    var file := prefix + "-" + text + "." + suffix;
    assert file == prefix + ['-'] + (text + "." + suffix);
    IndexOfAfter(prefix, '-', text + "." + suffix);
    assert '.' !in prefix + "-" + text;
    assert file == (prefix + "-" + text) + ['.'] + suffix;
    IndexOfAfter(prefix + "-" + text, '.', suffix);
    var dash, dot := |prefix|, |prefix| + 1 + |text|;
    assert IndexOf(file, '-') == dash && IndexOf(file, '.') == dot;
    assert file[dash + 1..dot] == text;
  }

  /** A name of the form <prefix>-<digits>.<suffix> gives the number of the digits. */
  lemma DeriveIdRoundTrip(prefix: string, n: nat, suffix: string)
    requires '-' !in prefix && '.' !in prefix && n <= LongMax
    ensures DeriveId(prefix + "-" + DecimalText(n) + "." + suffix) == Ok(n)
  {
    var digits := DecimalText(n);
    assert '.' !in digits by {
      forall i | 0 <= i < |digits| ensures digits[i] != '.' {
        assert IsDigit(digits[i]);
      }
    }
    DeriveIdBetween(prefix, digits, suffix);
    ParseDecimal(n);
  }

  /** A '.' before the first '-' leaves substring's bounds out of order. */
  lemma DotBeforeDash(prefix: string, middle: string, suffix: string)
    requires '-' !in prefix && '.' !in prefix && '-' !in middle
    ensures DeriveId(prefix + "." + middle + "-" + suffix) == Err(BadRange)
  {
    var file := prefix + "." + middle + "-" + suffix;
    assert file == prefix + ['.'] + (middle + "-" + suffix);
    IndexOfAfter(prefix, '.', middle + "-" + suffix);
    assert '-' !in prefix + "." + middle;
    assert file == (prefix + "." + middle) + ['-'] + suffix;
    IndexOfAfter(prefix + "." + middle, '-', suffix);
  }

  /** A name without '-' gets id 0. */
  lemma NoDashExample()
    ensures DeriveId("recording.jfr") == Ok(0)
  {
    assert '-' !in "recording.jfr";
  }

  /** The path is searched as a whole: the '.' of "./" comes before the '-'. */
  lemma RelativePathExample()
    ensures DeriveId("./rec-1.jfr") == Err(BadRange)
  {
    assert "" + "." + "/rec" + "-" + "1.jfr" == "./rec-1.jfr";
    DotBeforeDash("", "/rec", "1.jfr");
  }

  /** The usual name of a recording. */
  lemma NumberedExample()
    ensures DeriveId("recording-1234.jfr") == Ok(1234)
  {
    assert "recording" + "-" + "1234" + "." + "jfr" == "recording-1234.jfr";
    assert DecimalText(1234) == "1234";
    DeriveIdRoundTrip("recording", 1234, "jfr");
  }

  /** The '.' comes first: substring throws. */
  lemma BadRangeExample()
    ensures DeriveId("x.y-1") == Err(BadRange)
  {
    assert "x" + "." + "y" + "-" + "1" == "x.y-1";
    DotBeforeDash("x", "y", "1");
  }

  /** Nothing between '-' and '.': Long.valueOf throws. */
  lemma EmptyNumberExample()
    ensures DeriveId("rec-.jfr") == Err(NotANumber)
  {
    assert "rec" + "-" + "" + "." + "jfr" == "rec-.jfr";
    DeriveIdBetween("rec", "", "jfr");
  }
}
