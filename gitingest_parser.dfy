/** The parser of a gitingest text dump: after the preamble, the dump
    alternates a header chunk ("File: <name>") and a content chunk, each
    chunk ended by a separator line of 48 '=' characters. */
module GitIngestParser {
  import opened Wrappers
  import opened Strings
  import opened Models
  import SkillsUtil

  const Separator: string := "================================================\n"
  const FileMarker: string := "File: "

  /** The chunks after the first separator of the left-stripped dump. */
  function Chunks(input: string): seq<string> {
    Split(LStrip(input), Separator)[1..]
  }

  /** The text before the first separator is discarded: the chunks are the
      split of what follows it, and there are none without a separator. */
  lemma ChunksAfterPreamble(input: string)
    ensures var t := LStrip(input);
            Contains(t, Separator) ==> Chunks(input) == Split(t[Find(t, Separator) + |Separator|..], Separator)
    ensures !Contains(LStrip(input), Separator) ==> Chunks(input) == []
  {
    var t := LStrip(input);
    var parts := Split(t, Separator);
    assert Chunks(input) == parts[1..];
    var i := Find(t, Separator);
    if i >= 0 {
      var rest := t[i + |Separator|..];
      assert parts[1..] == Split(rest, Separator) by {
        SplitRest(t, Separator, i);
      }
    } else {
      assert parts == [t] by {
        SplitWithout(t, Separator);
      }
    }
  }

  /** `header.split("File: ")[1].strip()`: None where Python raises IndexError. */
  function FileName(header: string): Option<string> {
    var piece := SecondPiece(header, FileMarker);
    if piece.None? then None else Some(Strip(piece.value))
  }

  /** A header names a file exactly when it holds the marker. */
  lemma FileNameNone(header: string)
    ensures FileName(header).None? <==> !Contains(header, FileMarker)
  {
    SecondPieceNone(header, FileMarker);
  }

  /** The name is the first piece of the split of the text after the first
      marker, that is that text up to any second marker, stripped. */
  lemma FileNameOfHeader(header: string)
    requires Contains(header, FileMarker)
    ensures var i := Find(header, FileMarker);
            FileName(header) == Some(Strip(Split(header[i + |FileMarker|..], FileMarker)[0]))
  {
    SecondPieceFirstOfRest(header, FileMarker);
  }

  /** The record of one (header, content) pair whose header names a file. */
  function ParsedFileOf(name: string, content: string): ParsedFile {
    var ext := AfterLastChar(name, '.');
    ParsedFile(name, ext, CountChar(content, '\n'), |content|, SkillsUtil.LanguageOfExtension(ext))
  }

  /** The extension is the text after the last '.' (all of the name when it has
      none), the line count the number of newlines, the char count the length,
      and the language the table entry of the extension (the parser's table
      lists the same entries as the skills classifier's). */
  lemma ParsedFileFields(name: string, content: string)
    ensures var p := ParsedFileOf(name, content);
            && p.fileName == name && p.charCount == |content|
            && p.lineCount == multiset(content)['\n']
            && EndsWith(name, p.fileExtension) && '.' !in p.fileExtension
            && ('.' in name ==> name[|name| - |p.fileExtension| - 1] == '.')
            && ('.' !in name ==> p.fileExtension == name)
            && p.language == SkillsUtil.LanguageOfExtension(p.fileExtension)
  {
    AfterLastCharSpec(name, '.');
  }

  /** The (header, content) pairs of the chunks, each header replaced by the
      name it gives; a trailing unpaired chunk belongs to no entry. */
  function Entries(chunks: seq<string>): seq<(Option<string>, string)>
    decreases |chunks|
  {
    if |chunks| < 2 then []
    else [(FileName(chunks[0]), chunks[1])] + Entries(chunks[2..])
  }

  /** There is one entry per complete pair. */
  lemma {:induction false} EntriesLength(chunks: seq<string>)
    ensures |Entries(chunks)| == |chunks| / 2
    decreases |chunks|
  {
    if |chunks| >= 2 {
      var rest := chunks[2..];
      EntriesLength(rest);
      assert |rest| / 2 + 1 == |chunks| / 2;
    }
  }

  /** There is one entry per complete pair, and entry k comes from chunks 2k
      and 2k + 1. */
  lemma {:induction false} EntryAt(chunks: seq<string>, k: nat)
    ensures |Entries(chunks)| == |chunks| / 2
    ensures k < |chunks| / 2 ==> Entries(chunks)[k] == (FileName(chunks[2 * k]), chunks[2 * k + 1])
    decreases |chunks|
  {
    EntriesLength(chunks);
    if |chunks| >= 2 && k < |chunks| / 2 {
      var rest := chunks[2..];
      var head := (FileName(chunks[0]), chunks[1]);
      assert Entries(chunks) == [head] + Entries(rest);
      if k > 0 {
        var j := k - 1;
        assert 2 * k == 2 * j + 2;
        EntryAt(rest, j);
        assert Entries(chunks)[k] == Entries(rest)[j];
        assert rest[2 * j] == chunks[2 * k];
        assert rest[2 * j + 1] == chunks[2 * k + 1];
      }
    }
  }

  /** Every entry has a name. */
  predicate AllNamed(entries: seq<(Option<string>, string)>) {
    forall k :: 0 <= k < |entries| ==> entries[k].0.Some?
  }

  /** The record of an entry that has a name. */
  function Record(entry: (Option<string>, string)): ParsedFile
    requires entry.0.Some?
  {
    ParsedFileOf(entry.0.value, entry.1)
  }

  /** The records of the entries, in order. */
  function Records(entries: seq<(Option<string>, string)>): (files: seq<ParsedFile>)
    requires AllNamed(entries)
    ensures |files| == |entries|
  {
    if entries == [] then []
    else
      var m := |entries| - 1;
      assert forall k :: 0 <= k < m ==> entries[..m][k] == entries[k];
      Records(entries[..m]) + [Record(entries[m])]
  }

  /** The k-th record is the record of the k-th entry. */
  lemma {:induction false} RecordAt(entries: seq<(Option<string>, string)>, k: nat)
    requires AllNamed(entries) && k < |entries|
    ensures entries[k].0.Some? && Records(entries)[k] == Record(entries[k])
    decreases |entries|
  {
    var m := |entries| - 1;
    var init := entries[..m];
    assert AllNamed(init) by {
      assert forall j :: 0 <= j < m ==> init[j] == entries[j];
    }
    assert Records(entries) == Records(init) + [Record(entries[m])];
    if k < m {
      RecordAt(init, k);
      assert init[k] == entries[k];
      assert Records(entries)[k] == Records(init)[k];
    }
  }

  /** One more named entry extends the named prefix and its records. */
  lemma NextEntry(entries: seq<(Option<string>, string)>, n: nat)
    requires n < |entries| && AllNamed(entries[..n]) && entries[n].0.Some?
    ensures AllNamed(entries[..n + 1])
    ensures Records(entries[..n + 1]) == Records(entries[..n]) + [Record(entries[n])]
  {
    var next := entries[..n + 1];
    assert next[..n] == entries[..n];
    assert forall k :: 0 <= k < n ==> next[k] == entries[..n][k];
  }

  /** `GitIngestParserUtil.parse`: one record per complete (header, content)
      pair, in order; a trailing unpaired chunk is ignored, and a header
      without "File: " fails the whole parse. */
  method Parse(input: string) returns (r: Result<seq<ParsedFile>>)
    ensures r.Ok? <==> AllNamed(Entries(Chunks(input)))
    ensures r.Ok? ==> AllNamed(Entries(Chunks(input))) && r.value == Records(Entries(Chunks(input)))
  {
    r := ParseChunks(Chunks(input));
  }

  /** The loop of `parse` over the chunks, a pair at a time. */
  method ParseChunks(chunks: seq<string>) returns (r: Result<seq<ParsedFile>>)
    ensures r.Ok? <==> AllNamed(Entries(chunks))
    ensures r.Ok? ==> AllNamed(Entries(chunks)) && r.value == Records(Entries(chunks))
  {
    var entries := Entries(chunks);
    var total := |chunks| / 2;
    EntryAt(chunks, 0);
    var files: seq<ParsedFile> := [];
    var index := 0;
    while index < total
      invariant 0 <= index <= total
      invariant AllNamed(entries[..index])
      invariant files == Records(entries[..index])
    {
      var name := FileName(chunks[2 * index]);
      var content := chunks[2 * index + 1];
      EntryAt(chunks, index);
      if name.None? {
        assert !AllNamed(entries);
        return Err("IndexError: list index out of range");
      }
      NextEntry(entries, index);
      assert Record(entries[index]) == ParsedFileOf(name.value, content);
      files := files + [ParsedFileOf(name.value, content)];
      index := index + 1;
    }
    assert entries[..total] == entries;
    return Ok(files);
  }
}
