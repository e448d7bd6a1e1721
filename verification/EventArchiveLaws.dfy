/** Reading back what was appended. */
module EventArchiveLaws {
  import opened Text
  import opened EventLog
  import opened EventArchive

  lemma {:induction false} ReadLinesAppend(codec: Codec, a: seq<string>, b: seq<string>)
    ensures ReadLines(codec, a + b) == ReadLines(codec, a) + ReadLines(codec, b)
  {
    if a == [] {
      assert a + b == b;
    } else {
      assert (a + b)[1..] == a[1..] + b;
      ReadLinesAppend(codec, a[1..], b);
    }
  }

  /** Two line lists whose inner ends share a line. */
  function Glue(x: seq<string>, y: seq<string>): (z: seq<string>)
    requires x != [] && y != []
    ensures z != []
  {
    x[..|x|-1] + [x[|x|-1] + y[0]] + y[1..]
  }

  lemma GlueCons(p: string, x: seq<string>, y: seq<string>)
    requires x != [] && y != []
    ensures Glue([p] + x, y) == [p] + Glue(x, y)
  {
    assert ([p] + x)[..|x|] == [p] + x[..|x|-1];
  }

  lemma GlueHead(c: char, x: seq<string>, y: seq<string>)
    requires x != [] && y != []
    ensures Glue([[c] + x[0]] + x[1..], y) == [[c] + Glue(x, y)[0]] + Glue(x, y)[1..]
  {
    if |x| == 1 {
      assert [c] + x[0] + y[0] == [c] + (x[0] + y[0]);
      assert Glue(x, y) == [x[0] + y[0]] + y[1..];
      assert Glue([[c] + x[0]] + x[1..], y) == [[c] + x[0] + y[0]] + y[1..];
    } else {
      assert x == [x[0]] + x[1..];
      GlueCons(x[0], x[1..], y);
      GlueCons([c] + x[0], x[1..], y);
    }
  }

  lemma {:induction false} SplitConcat(a: string, b: string, sep: char)
    ensures Split(a + b, sep) == Glue(Split(a, sep), Split(b, sep))
  {
    var y := Split(b, sep);
    if a == [] {
      assert a + b == b;
      assert [] + y[0] == y[0] && y == [y[0]] + y[1..];
      assert Glue([[]], y) == [[] + y[0]] + y[1..];
    } else {
      assert (a + b)[1..] == a[1..] + b;
      SplitConcat(a[1..], b, sep);
      GlueCons([], Split(a[1..], sep), y);
      GlueHead(a[0], Split(a[1..], sep), y);
    }
  }

  function Printed(codec: Codec, xs: seq<Event>): seq<string> {
    seq(|xs|, i requires 0 <= i < |xs| => codec.encode(xs[i]))
  }

  lemma {:induction false} SplitEncoded(codec: Codec, xs: seq<Event>)
    requires codec.Valid()
    ensures Split(Encoded(codec, xs), '\n') == Printed(codec, xs) + [[]]
  {
    if xs != [] {
      SplitEncoded(codec, xs[1..]);
      SplitAfter(codec.encode(xs[0]), '\n', Encoded(codec, xs[1..]));
      assert Printed(codec, xs) == [codec.encode(xs[0])] + Printed(codec, xs[1..]);
    }
  }

  lemma {:induction false} ReadPrinted(codec: Codec, xs: seq<Event>)
    requires codec.Valid()
    ensures ReadLines(codec, Printed(codec, xs)) == xs
  {
    if xs != [] {
      ReadPrinted(codec, xs[1..]);
      assert Printed(codec, xs)[1..] == Printed(codec, xs[1..]);
      TrimOfTrimmed(codec.encode(xs[0]));
      assert ReadLine(codec, codec.encode(xs[0])) == [xs[0]];
    }
  }

  lemma ReadEncoded(codec: Codec, xs: seq<Event>)
    requires codec.Valid()
    ensures ReadLines(codec, Split(Encoded(codec, xs), '\n')) == xs
    ensures !IsArray(Encoded(codec, xs))
  {
    SplitEncoded(codec, xs);
    ReadPrinted(codec, xs);
    ReadLinesAppend(codec, Printed(codec, xs), [[]]);
    assert ReadLines(codec, [[]]) == [] by { BlankLine(codec, []); }
    if xs != [] { assert Encoded(codec, xs)[0] == '{'; }
  }

  /** Migration from the array to lines leaves the reading unchanged. */
  lemma MigrationKeepsReading(codec: Codec, s: string)
    requires codec.Valid() && IsArray(s) && Reading(codec, Some(s)).Ok?
    ensures Reading(codec, Some(Encoded(codec, Reading(codec, Some(s)).value))) == Reading(codec, Some(s))
  {
    ReadEncoded(codec, Reading(codec, Some(s)).value);
  }

  function LastLine(s: string): string { Split(s, '\n')[|Split(s, '\n')| - 1] }

  /** The events on the lines that are finished, that is, all but the last. */
  function Finished(codec: Codec, s: string): seq<Event> {
    ReadLines(codec, Split(s, '\n')[..|Split(s, '\n')| - 1])
  }

  lemma {:induction false} SkipSpaceAppend(s: string, more: string)
    ensures SkipSpace(s) == [] ==> SkipSpace(s + more) == SkipSpace(more)
    ensures SkipSpace(s) != [] ==> SkipSpace(s + more) == SkipSpace(s) + more
  {
    if s == [] {
      assert s + more == more;
    } else if IsSpaceByte(s[0]) {
      SkipSpaceAppend(s[1..], more);
      assert (s + more)[1..] == s[1..] + more;
    }
  }

  lemma ReadingByLastLine(codec: Codec, s: string)
    ensures ReadLines(codec, Split(s, '\n')) == Finished(codec, s) + ReadLine(codec, LastLine(s))
  {
    var lines := Split(s, '\n');
    assert lines == lines[..|lines|-1] + [LastLine(s)];
    ReadLinesAppend(codec, lines[..|lines|-1], [LastLine(s)]);
    assert ReadLines(codec, [LastLine(s)]) == ReadLine(codec, LastLine(s)) + ReadLines(codec, []);
  }

  lemma AppendSplits(codec: Codec, s: string, xs: seq<Event>)
    requires codec.Valid() && xs != []
    ensures var lines := Split(s, '\n');
            Split(s + Encoded(codec, xs), '\n') ==
            lines[..|lines|-1] + [LastLine(s) + codec.encode(xs[0])] + Split(Encoded(codec, xs[1..]), '\n')
  {
    SplitConcat(s, Encoded(codec, xs), '\n');
    SplitEncoded(codec, xs);
    SplitEncoded(codec, xs[1..]);
    assert (Printed(codec, xs) + [[]])[1..] == Printed(codec, xs[1..]) + [[]];
  }

  lemma ReadGlued(codec: Codec, done: seq<string>, merged: string, rest: seq<string>)
    ensures ReadLines(codec, done + [merged] + rest) == ReadLines(codec, done) + ReadLine(codec, merged) + ReadLines(codec, rest)
  {
    ReadLinesAppend(codec, done + [merged], rest);
    ReadLinesAppend(codec, done, [merged]);
    assert ReadLines(codec, [merged]) == ReadLine(codec, merged) + ReadLines(codec, []);
  }

  lemma AppendStaysLines(codec: Codec, s: string, xs: seq<Event>)
    requires codec.Valid() && !IsArray(s) && xs != []
    ensures !IsArray(s + Encoded(codec, xs))
  {
    SkipSpaceAppend(s, Encoded(codec, xs));
    assert Encoded(codec, xs)[0] == '{';
  }

  lemma AppendReadsGlued(codec: Codec, s: string, xs: seq<Event>)
    requires codec.Valid() && xs != []
    ensures ReadLines(codec, Split(s + Encoded(codec, xs), '\n')) ==
            Finished(codec, s) + ReadLine(codec, LastLine(s) + codec.encode(xs[0])) + xs[1..]
  {
    AppendSplits(codec, s, xs);
    ReadGlued(codec, Split(s, '\n')[..|Split(s, '\n')|-1], LastLine(s) + codec.encode(xs[0]),
              Split(Encoded(codec, xs[1..]), '\n'));
    ReadEncoded(codec, xs[1..]);
  }

  /** What the file reads after an append, whatever its last line was. */
  lemma AppendReads(codec: Codec, s: string, xs: seq<Event>)
    requires codec.Valid() && xs != []
    ensures AllSpace(LastLine(s)) ==>
              ReadLines(codec, Split(s + Encoded(codec, xs), '\n')) == Finished(codec, s) + xs
    ensures !AllSpace(LastLine(s)) ==>
              ReadLines(codec, Split(s + Encoded(codec, xs), '\n')) == Finished(codec, s) + xs[1..]
  {
    AppendReadsGlued(codec, s, xs);
    MergedLine(codec, s, xs[0]);
    Regroup(Finished(codec, s), xs);
  }

  lemma Regroup(done: seq<Event>, xs: seq<Event>)
    requires xs != []
    ensures done + [xs[0]] + xs[1..] == done + xs
    ensures done + [] + xs[1..] == done + xs[1..]
  {
  }

  /** The first new line is glued to whatever the file ended with. */
  lemma MergedLine(codec: Codec, s: string, e: Event)
    requires codec.Valid()
    ensures AllSpace(LastLine(s)) ==> ReadLine(codec, LastLine(s) + codec.encode(e)) == [e]
    ensures !AllSpace(LastLine(s)) ==> ReadLine(codec, LastLine(s) + codec.encode(e)) == []
  {
    var last := LastLine(s);
    if AllSpace(last) {
      TrimOfPadded(last, codec.encode(e), []);
      assert last + codec.encode(e) + [] == last + codec.encode(e);
    } else {
      SplitFree(s, '\n');
      assert codec.decode(TrimSpace(last + codec.encode(e))) == None;
    }
  }

  /**
  The round trip. A missing file and a well-formed array are always extended by exactly the new events, and so
  is a file of lines exactly when its last line is blank: an unterminated line swallows the first new event.
  */
  lemma AppendExtendsReading(codec: Codec, file: File, xs: seq<Event>)
    requires codec.Valid() && xs != [] && Reading(codec, file).Ok?
    ensures Reading(codec, Extended(codec, file, xs)) == Ok(Reading(codec, file).value + xs) <==>
            file.None? || IsArray(file.value) || AllSpace(LastLine(file.value))
    ensures file.Some? && !IsArray(file.value) && !AllSpace(LastLine(file.value)) ==>
            Reading(codec, Extended(codec, file, xs)) == Ok(Finished(codec, file.value) + xs[1..])
  {
    if file.None? {
      ReadEncoded(codec, xs);
      assert [] + xs == xs;
    } else if IsArray(file.value) {
      var items := Reading(codec, file).value;
      ReadEncoded(codec, items);
      EncodedEndsBlank(codec, items);
      AppendReads(codec, Encoded(codec, items), xs);
      AppendStaysLines(codec, Encoded(codec, items), xs);
      ReadingByLastLine(codec, Encoded(codec, items));
      BlankLine(codec, LastLine(Encoded(codec, items)));
      assert Finished(codec, Encoded(codec, items)) == items;
    } else {
      AppendReads(codec, file.value, xs);
      AppendStaysLines(codec, file.value, xs);
      ReadingByLastLine(codec, file.value);
      var finished := Finished(codec, file.value);
      if AllSpace(LastLine(file.value)) {
        BlankLine(codec, LastLine(file.value));
        assert finished + [] == finished;
      } else {
        assert |finished + xs[1..]| < |Reading(codec, file).value + xs|;
      }
    }
  }

  lemma EncodedEndsBlank(codec: Codec, xs: seq<Event>)
    requires codec.Valid()
    ensures AllSpace(LastLine(Encoded(codec, xs)))
  {
    SplitEncoded(codec, xs);
  }

  lemma AppendEndsBlank(codec: Codec, s: string, xs: seq<Event>)
    requires codec.Valid() && xs != []
    ensures AllSpace(LastLine(s + Encoded(codec, xs)))
  {
    SplitConcat(s, Encoded(codec, xs), '\n');
    SplitEncoded(codec, xs);
  }

  // ----- any number of appends --------------------------------------------------------------

  function ExtendedAll(codec: Codec, file: File, batches: seq<seq<Event>>): File {
    if batches == [] then file
    else Extended(codec, ExtendedAll(codec, file, batches[..|batches|-1]), batches[|batches|-1])
  }

  function Concat(batches: seq<seq<Event>>): seq<Event> {
    if batches == [] then [] else Concat(batches[..|batches|-1]) + batches[|batches|-1]
  }

  /** A file that this program leaves behind: missing, a readable array, or lines that end in a blank one. */
  ghost predicate Sound(codec: Codec, file: File) {
    Reading(codec, file).Ok? && (file.None? || IsArray(file.value) || AllSpace(LastLine(file.value)))
  }

  lemma StepStaysSound(codec: Codec, file: File, xs: seq<Event>)
    requires codec.Valid() && Sound(codec, file) && xs != []
    ensures Sound(codec, Extended(codec, file, xs))
    ensures Reading(codec, Extended(codec, file, xs)) == Ok(Reading(codec, file).value + xs)
  {
    AppendExtendsReading(codec, file, xs);
    if file.None? {
      EncodedEndsBlank(codec, xs);
    } else if IsArray(file.value) {
      AppendEndsBlank(codec, Encoded(codec, Reading(codec, file).value), xs);
    } else {
      AppendEndsBlank(codec, file.value, xs);
    }
  }

  /** Every sequence of appends to a sound file reads back as the old events and then all batches, in order. */
  lemma {:induction false} AppendsAccumulate(codec: Codec, file: File, batches: seq<seq<Event>>)
    requires codec.Valid() && Sound(codec, file)
    ensures var after := ExtendedAll(codec, file, batches);
            Sound(codec, after) && Reading(codec, after) == Ok(Reading(codec, file).value + Concat(batches))
  {
    if batches != [] {
      var n := |batches| - 1;
      AppendsAccumulate(codec, file, batches[..n]);
      var (before, xs) := (ExtendedAll(codec, file, batches[..n]), batches[n]);
      var read := Reading(codec, file).value;
      assert read + Concat(batches[..n]) + xs == read + (Concat(batches[..n]) + xs);
      assert Concat(batches) == Concat(batches[..n]) + xs && ExtendedAll(codec, file, batches) == Extended(codec, before, xs);
      if xs != [] {
        StepStaysSound(codec, before, xs);
      } else {
        assert read + Concat(batches) == read + Concat(batches[..n]);
      }
    } else {
      assert Reading(codec, file).value + [] == Reading(codec, file).value;
    }
  }
}
