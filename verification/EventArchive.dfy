/**
The event archive file of internal/runtime/disk_events.go. It is either one event per line (NDJSON) or, in
files of an older version, one JSON array; an append migrates the array first.
*/
module EventArchive {
  import opened Text
  import opened EventLog

  datatype Result<+T> = Ok(value: T) | Err

  /** JSON is kept abstract: how one event is written, and how a line or a whole array is read. */
  datatype Codec = Codec(encode: Event -> string, decode: string -> Option<Event>, decodeArray: string -> Option<seq<Event>>) {
    ghost predicate Valid() {
      && (forall e {:trigger encode(e)} :: decode(encode(e)) == Some(e))
      && (forall e {:trigger encode(e)} :: encode(e) != "" && encode(e)[0] == '{' && '\n' !in encode(e))
      && (forall e {:trigger encode(e)} :: Trimmed(encode(e)))
      && (forall torn: string, e {:trigger torn + encode(e)} ::
            '\n' !in torn && !AllSpace(torn) ==> decode(TrimSpace(torn + encode(e))) == None)
    }
  }

  type File = Option<string>

  predicate IsSpaceByte(c: char) { c == ' ' || c == '\n' || c == '\r' || c == '\t' }

  function SkipSpace(s: string): string {
    if s != [] && IsSpaceByte(s[0]) then SkipSpace(s[1..]) else s
  }

  predicate IsArray(s: string) { SkipSpace(s) != [] && SkipSpace(s)[0] == '[' }

  /** One line: blank and malformed lines give no event. */
  function ReadLine(codec: Codec, line: string): seq<Event> {
    var trimmed := TrimSpace(line);
    if trimmed == "" then []
    else match codec.decode(trimmed) case None => [] case Some(e) => [e]
  }

  function ReadLines(codec: Codec, lines: seq<string>): seq<Event> {
    if lines == [] then [] else ReadLine(codec, lines[0]) + ReadLines(codec, lines[1..])
  }

  function Reading(codec: Codec, file: File): Result<seq<Event>> {
    match file
    case None => Ok([])
    case Some(s) =>
      if IsArray(s) then
        (match codec.decodeArray(SkipSpace(s)) case None => Err case Some(items) => Ok(items))
      else Ok(ReadLines(codec, Split(s, '\n')))
  }

  function Encoded(codec: Codec, xs: seq<Event>): string {
    if xs == [] then [] else codec.encode(xs[0]) + ['\n'] + Encoded(codec, xs[1..])
  }

  // ----- the file, read and written step by step ------------------------------------------

  class ArchiveFile {
    const codec: Codec
    var file: File

    constructor (codec: Codec, file: File)
      ensures this.codec == codec && this.file == file
    {
      this.codec, this.file := codec, file;
    }

    method StreamEventArchive() returns (r: Result<seq<Event>>)
      ensures r == Reading(codec, file)
    {
      if file.None? { return Ok([]); }
      var rest := file.value;
      while rest != [] && IsSpaceByte(rest[0])
        invariant SkipSpace(rest) == SkipSpace(file.value)
        invariant ReadLines(codec, Split(rest, '\n')) == ReadLines(codec, Split(file.value, '\n'))
        decreases |rest|
      {
        SkipOneSpace(codec, rest);
        rest := rest[1..];
      }
      if rest == [] {
        assert ReadLines(codec, Split([], '\n')) == [] by { BlankLine(codec, []); }
        return Ok([]);
      }
      if rest[0] == '[' {
        var items := codec.decodeArray(rest);
        return if items.None? then Err else Ok(items.value);
      }
      var events := ReadRemaining(rest);
      r := Ok(events);
    }

    method ReadRemaining(text: string) returns (events: seq<Event>)
      ensures events == ReadLines(codec, Split(text, '\n'))
    {
      ghost var all := ReadLines(codec, Split(text, '\n'));
      events := [];
      var rest := text;
      while '\n' in rest
        invariant all == events + ReadLines(codec, Split(rest, '\n'))
        decreases |rest|
      {
        var end := LineEnd(rest);
        OneMoreLine(codec, all, events, rest, end);
        events := events + ReadLine(codec, rest[..end+1]);
        rest := rest[end+1..];
      }
      LastLineAlone(codec, rest);
      events := events + ReadLine(codec, rest);
    }

    method CountEventArchive() returns (r: Result<nat>)
      ensures Reading(codec, file).Ok? ==> r == Ok(|Reading(codec, file).value|)
      ensures Reading(codec, file).Err? ==> r == Err
    {
      var items := StreamEventArchive();
      r := match items case Err => Err case Ok(xs) => Ok(|xs|);
    }

    /** Rewrites an array file as lines, through a temporary file and a rename. */
    method EnsureNDJSON() returns (ok: bool)
      modifies this
      ensures !ok <==> old(file.Some? && IsArray(file.value) && Reading(codec, file).Err?)
      ensures old(file.None? || !IsArray(file.value)) || !ok ==> file == old(file)
      ensures ok && old(file.Some? && IsArray(file.value)) ==>
        file == Some(Encoded(codec, old(Reading(codec, file)).value))
    {
      if file.None? { return true; }
      if !IsArray(file.value) { return true; }
      var items := StreamEventArchive();
      if items.Err? { return false; }
      var out := Write(items.value);
      file := Some(out);
      ok := true;
    }

    method Write(items: seq<Event>) returns (out: string)
      ensures out == Encoded(codec, items)
    {
      out := [];
      for i := 0 to |items|
        invariant out + Encoded(codec, items[i..]) == Encoded(codec, items)
      {
        assert items[i..][1..] == items[i+1..];
        assert out + Encoded(codec, items[i..]) == out + codec.encode(items[i]) + ['\n'] + Encoded(codec, items[i+1..]);
        out := out + codec.encode(items[i]) + ['\n'];
      }
    }

    method AppendEventArchive(items: seq<Event>) returns (ok: bool)
      modifies this
      ensures ok <==> items == [] || !old(file.Some? && IsArray(file.value) && Reading(codec, file).Err?)
      ensures file == if ok then Extended(codec, old(file), items) else old(file)
    {
      if items == [] { return true; }
      ok := EnsureNDJSON();
      if !ok { return; }
      var out := Write(items);
      assert [] + out == out;
      file := Some((if file.None? then [] else file.value) + out);
    }
  }

  /** The file after a successful append. */
  function Extended(codec: Codec, file: File, xs: seq<Event>): File {
    if xs == [] then file
    else if file.None? then Some(Encoded(codec, xs))
    else if IsArray(file.value) then
      (match codec.decodeArray(SkipSpace(file.value))
       case None => file
       case Some(items) => Some(Encoded(codec, items) + Encoded(codec, xs)))
    else Some(file.value + Encoded(codec, xs))
  }

  function LineEnd(s: string): (n: nat)
    ensures n <= |s| && '\n' !in s[..n] && (n < |s| ==> s[n] == '\n') && (n < |s| <==> '\n' in s)
  {
    if s == [] || s[0] == '\n' then 0
    else
      var n := LineEnd(s[1..]) + 1;
      assert s[..n] == [s[0]] + s[1..][..n-1] && s == [s[0]] + s[1..];
      n
  }

  // ----- lines and padding ------------------------------------------------------------------

  lemma BlankLine(codec: Codec, line: string)
    requires AllSpace(line)
    ensures ReadLine(codec, line) == []
  {
    TrimOfSpaces(line);
  }

  lemma TrimIgnoresNewline(line: string)
    ensures TrimSpace(line + ['\n']) == TrimSpace(line)
  {
    var left, right := TrimSpaceIs(line);
    TrimOfPadded(left, TrimSpace(line), right + ['\n']);
    assert line + ['\n'] == left + TrimSpace(line) + (right + ['\n']);
  }

  lemma LastLineAlone(codec: Codec, text: string)
    requires '\n' !in text
    ensures ReadLines(codec, Split(text, '\n')) == ReadLine(codec, text)
  {
    SplitWithout(text, '\n');
    assert ReadLines(codec, [text]) == ReadLine(codec, text) + ReadLines(codec, []);
  }

  lemma FirstLine(codec: Codec, text: string, end: nat)
    requires end < |text| && text[end] == '\n' && '\n' !in text[..end]
    ensures ReadLines(codec, Split(text, '\n')) ==
            ReadLine(codec, text[..end+1]) + ReadLines(codec, Split(text[end+1..], '\n'))
  {
    assert text == text[..end] + ['\n'] + text[end+1..];
    SplitAfter(text[..end], '\n', text[end+1..]);
    TrimIgnoresNewline(text[..end]);
    assert text[..end+1] == text[..end] + ['\n'];
    assert Split(text, '\n')[1..] == Split(text[end+1..], '\n');
  }

  lemma OneMoreLine(codec: Codec, all: seq<Event>, events: seq<Event>, rest: string, end: nat)
    requires end < |rest| && rest[end] == '\n' && '\n' !in rest[..end]
    requires all == events + ReadLines(codec, Split(rest, '\n'))
    ensures all == events + ReadLine(codec, rest[..end+1]) + ReadLines(codec, Split(rest[end+1..], '\n'))
  {
    FirstLine(codec, rest, end);
    Regroup(events, ReadLine(codec, rest[..end+1]), ReadLines(codec, Split(rest[end+1..], '\n')));
  }

  lemma Regroup<T>(a: seq<T>, b: seq<T>, c: seq<T>)
    ensures a + (b + c) == a + b + c
  {
  }

  /** White space before the content of a file, as JSON knows it, does not show in the reading. */
  lemma {:induction false} PaddingIsSkipped(codec: Codec, pad: string, s: string)
    requires forall i :: 0 <= i < |pad| ==> pad[i] in {' ', '\t', '\r', '\n'}
    ensures Reading(codec, Some(pad + s)) == Reading(codec, Some(s))
  {
    if pad == [] {
      assert pad + s == s;
    } else {
      assert (pad + s)[1..] == pad[1..] + s && (pad + s)[0] == pad[0];
      SkipOneSpace(codec, pad + s);
      PaddingIsSkipped(codec, pad[1..], s);
    }
  }

  /** A line that decodes gives its event; blank and malformed ones give none. */
  lemma LinesSay(codec: Codec, line: string)
    ensures TrimSpace(line) != "" && codec.decode(TrimSpace(line)).Some? ==> ReadLine(codec, line) == [codec.decode(TrimSpace(line)).value]
    ensures TrimSpace(line) == "" || codec.decode(TrimSpace(line)).None? ==> ReadLine(codec, line) == []
  {
  }

  lemma SkipOneSpace(codec: Codec, s: string)
    requires s != [] && IsSpaceByte(s[0])
    ensures ReadLines(codec, Split(s, '\n')) == ReadLines(codec, Split(s[1..], '\n'))
  {
    var rest := Split(s[1..], '\n');
    if s[0] == '\n' {
      BlankLine(codec, []);
      assert Split(s, '\n')[1..] == rest;
    } else {
      assert Split(s, '\n')[0] == [s[0]] + rest[0] && Split(s, '\n')[1..] == rest[1..];
    }
  }
}
