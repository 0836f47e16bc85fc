/**
 * The extended-M3U playlist parser: a loose subset of the `#EXTINF` tag of
 * section 4.3.2.1 of RFC 8216. The duration is ignored; a record's name is
 * the trimmed text after the last comma of the most recent `#EXTINF:` line,
 * and a trimmed line starting with `http` is a stream URL that completes a
 * record. Every other line is ignored.
 */
module Playlist {
  import opened Wrappers
  import opened JsString

  /** One channel: `name` is absent when no `#EXTINF:` line preceded its URL. */
  datatype Channel = Channel(name: Option<string>, url: string)

  const ExtinfTag: string := "#EXTINF:"
  const UrlPrefix: string := "http"

  /** The playlist text split into lines at each line feed. */
  function Lines(content: string): seq<string> {
    Split(content, '\n')
  }

  /** A trimmed line that carries channel metadata. */
  predicate IsExtinf(line: string) {
    StartsWith(line, ExtinfTag)
  }

  /** A trimmed line that is a stream URL. */
  predicate IsUrl(line: string) {
    StartsWith(line, UrlPrefix)
  }

  /** The channel name of a trimmed `#EXTINF:` line: its last comma-separated field, trimmed. */
  function NameOf(line: string): string {
    var parts := Split(line, ',');
    Trim(parts[|parts| - 1])
  }

  /**
   * The records produced by scanning `lines` from left to right while the
   * pending record carries the name `pending`.
   */
  function ParseFrom(lines: seq<string>, pending: Option<string>): seq<Channel> {
    if lines == [] then []
    else
      var line := Trim(lines[0]);
      if IsExtinf(line) then ParseFrom(lines[1..], Some(NameOf(line)))
      else if IsUrl(line) then [Channel(pending, line)] + ParseFrom(lines[1..], None)
      else ParseFrom(lines[1..], pending)
  }

  /** The channel list of a playlist text, starting with an empty pending record. */
  function Parse(content: string): seq<Channel> {
    ParseFrom(Lines(content), None)
  }

  /** `parseM3U`: one left-to-right pass that keeps a pending record and appends finished ones. */
  method ParseM3U(content: string) returns (channels: seq<Channel>)
    ensures channels == Parse(content)
  {
    var lines := Lines(content);
    channels := [];
    var currentName: Option<string> := None;
    for i := 0 to |lines|
      invariant channels + ParseFrom(lines[i..], currentName) == ParseFrom(lines, None)
    {
      assert lines[i..] == [lines[i]] + lines[i + 1..];
      ParseFromCons(lines[i], lines[i + 1..], currentName);
      var line := Trim(lines[i]);
      if StartsWith(line, ExtinfTag) {
        var parts := Split(line, ',');
        currentName := Some(Trim(parts[|parts| - 1]));
      } else if StartsWith(line, UrlPrefix) {
        var channel := Channel(currentName, line);
        assert (channels + [channel]) + ParseFrom(lines[i + 1..], None)
            == channels + ([channel] + ParseFrom(lines[i + 1..], None));
        channels := channels + [channel];
        currentName := None;
      }
    }
    assert lines[|lines|..] == [];
  }

  /** Reading one line: an `#EXTINF:` line sets the pending name, a URL line emits a record. */
  lemma ParseFromCons(line: string, lines: seq<string>, pending: Option<string>)
    ensures var t := Trim(line);
            ParseFrom([line] + lines, pending)
            == if IsExtinf(t) then ParseFrom(lines, Some(NameOf(t)))
               else if IsUrl(t) then [Channel(pending, t)] + ParseFrom(lines, None)
               else ParseFrom(lines, pending)
  {
    var all := [line] + lines;
    assert all[0] == line && all[1..] == lines;
  }

  // ----- Which lines become records, and in what order -----

  /** The trimmed URL lines of `lines`, in source order. */
  function UrlLines(lines: seq<string>): (urls: seq<string>)
    ensures |urls| <= |lines|
    ensures forall k :: 0 <= k < |urls| ==> IsUrl(urls[k])
  {
    if lines == [] then []
    else
      var line := Trim(lines[0]);
      (if IsUrl(line) then [line] else []) + UrlLines(lines[1..])
  }

  /** The URLs of a channel list, in order. */
  function Urls(channels: seq<Channel>): (urls: seq<string>)
    ensures |urls| == |channels|
    ensures forall k :: 0 <= k < |channels| ==> urls[k] == channels[k].url
  {
    if channels == [] then [] else [channels[0].url] + Urls(channels[1..])
  }

  /** A URL line is never a metadata line: the two prefixes differ in their first character. */
  lemma UrlIsNotExtinf(line: string)
    requires IsUrl(line)
    ensures !IsExtinf(line)
  {
    assert line[0] == 'h';
  }

  /** Exactly one record per trimmed URL line, in source order, whatever the pending name. */
  lemma {:induction false} ParseFromUrls(lines: seq<string>, pending: Option<string>)
    ensures Urls(ParseFrom(lines, pending)) == UrlLines(lines)
  {
    if lines != [] {
      var line := Trim(lines[0]);
      if IsExtinf(line) {
        ParseFromUrls(lines[1..], Some(NameOf(line)));
        assert !IsUrl(line) by {
          if IsUrl(line) { UrlIsNotExtinf(line); }
        }
      } else if IsUrl(line) {
        ParseFromUrls(lines[1..], None);
        var rest := ParseFrom(lines[1..], None);
        assert ([Channel(pending, line)] + rest)[1..] == rest;
      } else {
        ParseFromUrls(lines[1..], pending);
      }
    }
  }

  /**
   * Record count and order: `Parse` yields one record per trimmed line that
   * starts with `http`, in source order, and its `url` is that trimmed line.
   */
  lemma ParseRecords(content: string)
    ensures |Parse(content)| == |UrlLines(Lines(content))|
    ensures forall k :: 0 <= k < |Parse(content)| ==>
              Parse(content)[k].url == UrlLines(Lines(content))[k]
              && StartsWith(Parse(content)[k].url, UrlPrefix)
  {
    ParseFromUrls(Lines(content), None);
  }

  // ----- Which name each record carries -----

  /** No line of `lines` is a URL line once trimmed. */
  predicate NoUrlLine(lines: seq<string>) {
    forall k :: 0 <= k < |lines| ==> !IsUrl(Trim(lines[k]))
  }

  /**
   * The name the pending record carries after `lines`, read from the end:
   * that of the last `#EXTINF:` line in `lines`, or `pending` if there is none.
   */
  function NameAfter(lines: seq<string>, pending: Option<string>): Option<string> {
    if lines == [] then pending
    else
      var line := Trim(lines[|lines| - 1]);
      if IsExtinf(line) then Some(NameOf(line)) else NameAfter(lines[..|lines| - 1], pending)
  }

  /** The pending name after reading one non-URL line. */
  function NextPending(line: string, pending: Option<string>): Option<string> {
    var t := Trim(line);
    if IsExtinf(t) then Some(NameOf(t)) else pending
  }

  /** Reading the first line before the rest agrees with reading from the end. */
  lemma {:induction false} NameAfterCons(line: string, lines: seq<string>, pending: Option<string>)
    ensures NameAfter([line] + lines, pending) == NameAfter(lines, NextPending(line, pending))
    decreases |lines|
  {
    var all := [line] + lines;
    if lines != [] {
      assert all[|all| - 1] == lines[|lines| - 1];
      assert all[..|all| - 1] == [line] + lines[..|lines| - 1];
      NameAfterCons(line, lines[..|lines| - 1], pending);
    } else {
      assert all[..|all| - 1] == [];
    }
  }

  /** One non-URL line emits nothing and only moves the pending name. */
  lemma ParseFromSkipLine(line: string, lines: seq<string>, pending: Option<string>)
    requires !IsUrl(Trim(line))
    ensures ParseFrom([line] + lines, pending) == ParseFrom(lines, NextPending(line, pending))
  {
    var all := [line] + lines;
    assert all[0] == line && all[1..] == lines;
  }

  /** A stretch without URL lines emits nothing and leaves the last `#EXTINF:` name pending. */
  lemma {:induction false} ParseSkips(pre: seq<string>, rest: seq<string>, pending: Option<string>)
    requires NoUrlLine(pre)
    ensures ParseFrom(pre + rest, pending) == ParseFrom(rest, NameAfter(pre, pending))
  {
    if pre == [] {
      assert pre + rest == rest;
    } else {
      var tail := pre[1..];
      assert pre == [pre[0]] + tail;
      assert pre + rest == [pre[0]] + (tail + rest);
      assert !IsUrl(Trim(pre[0]));
      assert NoUrlLine(tail) by {
        forall k | 0 <= k < |tail| ensures !IsUrl(Trim(tail[k])) {
          assert tail[k] == pre[k + 1];
        }
      }
      ParseFromSkipLine(pre[0], tail + rest, pending);
      ParseSkips(tail, rest, NextPending(pre[0], pending));
      NameAfterCons(pre[0], tail, pending);
    }
  }

  /**
   * Names: the record completed by the first URL line `u` carries the name of
   * the most recent `#EXTINF:` line before it (a later one overwrites an
   * earlier one), or `pending` when there is none; scanning then continues
   * with no name pending.
   */
  lemma ParseNextRecord(pre: seq<string>, u: string, post: seq<string>, pending: Option<string>)
    requires NoUrlLine(pre)
    requires IsUrl(Trim(u))
    ensures ParseFrom(pre + [u] + post, pending)
         == [Channel(NameAfter(pre, pending), Trim(u))] + ParseFrom(post, None)
  {
    assert pre + [u] + post == pre + ([u] + post);
    ParseSkips(pre, [u] + post, pending);
    UrlIsNotExtinf(Trim(u));
    assert ([u] + post)[1..] == post;
  }

  /** A trailing `#EXTINF:` line (or any text) with no URL line after it yields no record. */
  lemma ParseNoUrl(lines: seq<string>, pending: Option<string>)
    requires NoUrlLine(lines)
    ensures ParseFrom(lines, pending) == []
  {
    ParseSkips(lines, [], pending);
    assert lines + [] == lines;
  }

  /** The name of an `#EXTINF:` line is the trimmed text after its last comma. */
  lemma NameOfLastField(line: string)
    ensures exists field :: NameOf(line) == Trim(field) && AfterLastComma(line, field)
  {
    var parts := Split(line, ',');
    SplitLast(line, ',');
    assert AfterLastComma(line, parts[|parts| - 1]);
  }

  /** `field` is the text after the last comma of `line` (all of `line` when it has no comma). */
  predicate AfterLastComma(line: string, field: string) {
    && |field| <= |line| && line[|line| - |field|..] == field && ',' !in field
    && (|field| < |line| ==> line[|line| - |field| - 1] == ',')
  }

  // ----- Round trip with a writer of well-formed playlists -----

  /** A name and a URL that survive being written as an `#EXTINF:` line and a URL line. */
  predicate WellFormedEntry(name: string, url: string) {
    && IsTrimmed(name) && ',' !in name && '\n' !in name
    && IsUrl(url) && IsTrimmed(url) && '\n' !in url
  }

  /** The metadata line written for `name`, with the duration `-1` of a live stream. */
  function ExtinfLine(name: string): string {
    "#EXTINF:-1," + name
  }

  /** Two lines per entry: the metadata line, then the URL. */
  function EntryLines(entries: seq<(string, string)>): (lines: seq<string>)
    ensures |lines| == 2 * |entries|
  {
    if entries == [] then []
    else [ExtinfLine(entries[0].0), entries[0].1] + EntryLines(entries[1..])
  }

  /** A playlist text with one `#EXTINF:` line and one URL line per entry. */
  function Render(entries: seq<(string, string)>): string {
    if entries == [] then "" else Join(EntryLines(entries), '\n')
  }

  /** The channel records the entries denote. */
  function Named(entries: seq<(string, string)>): (channels: seq<Channel>)
    ensures |channels| == |entries|
  {
    if entries == [] then []
    else [Channel(Some(entries[0].0), entries[0].1)] + Named(entries[1..])
  }

  /** A written metadata line neither starts nor ends with a trimmable character. */
  lemma ExtinfLineTrimmed(name: string)
    requires IsTrimmed(name)
    ensures IsTrimmed(ExtinfLine(name))
  {
    var line := ExtinfLine(name);
    assert line[0] == '#';
    assert line[|line| - 1] == if name == [] then ',' else name[|name| - 1];
  }

  /** The name read back from a written metadata line is the name written. */
  lemma ExtinfLineName(name: string)
    requires IsTrimmed(name) && ',' !in name
    ensures NameOf(ExtinfLine(name)) == name
  {
    assert Join(["#EXTINF:-1", name], ',') == ExtinfLine(name);
    SplitJoin(["#EXTINF:-1", name], ',');
    TrimOfTrimmed(name);
  }

  /** A written metadata line is its own trim, is a metadata line, and carries no line feed. */
  lemma ExtinfLineReads(name: string)
    requires IsTrimmed(name) && ',' !in name && '\n' !in name
    ensures var line := ExtinfLine(name);
            Trim(line) == line && IsExtinf(line) && !IsUrl(line) && NameOf(line) == name
            && '\n' !in line
  {
    var line := ExtinfLine(name);
    ExtinfLineTrimmed(name);
    TrimOfTrimmed(line);
    ExtinfLineName(name);
    assert line[..|ExtinfTag|] == ExtinfTag;
    assert line[0] == '#';
    assert forall c :: c in line ==> c in "#EXTINF:-1," || c in name;
  }

  /** Parsing the written lines gives back one named record per entry. */
  lemma {:induction false} ParseEntryLines(entries: seq<(string, string)>, pending: Option<string>)
    requires forall k :: 0 <= k < |entries| ==> WellFormedEntry(entries[k].0, entries[k].1)
    ensures ParseFrom(EntryLines(entries), pending) == Named(entries)
  {
    if entries != [] {
      var (name, url) := entries[0];
      var rest := EntryLines(entries[1..]);
      assert WellFormedEntry(name, url);
      ExtinfLineReads(name);
      UrlIsNotExtinf(url);
      TrimOfTrimmed(url);
      assert EntryLines(entries) == [ExtinfLine(name)] + ([url] + rest);
      ParseFromCons(ExtinfLine(name), [url] + rest, pending);
      ParseFromCons(url, rest, Some(name));
      ParseEntryLines(entries[1..], None);
    }
  }

  /** No written line contains a line feed. */
  lemma {:induction false} EntryLinesFree(entries: seq<(string, string)>)
    requires forall k :: 0 <= k < |entries| ==> WellFormedEntry(entries[k].0, entries[k].1)
    ensures forall k :: 0 <= k < |EntryLines(entries)| ==> '\n' !in EntryLines(entries)[k]
  {
    if entries != [] {
      ExtinfLineReads(entries[0].0);
      EntryLinesFree(entries[1..]);
      assert WellFormedEntry(entries[0].0, entries[0].1);
    }
  }

  /**
   * Round trip: a playlist of k well-formed (name, URL) pairs parses to
   * exactly those k records, in order.
   */
  lemma RenderParse(entries: seq<(string, string)>)
    requires forall k :: 0 <= k < |entries| ==> WellFormedEntry(entries[k].0, entries[k].1)
    ensures Parse(Render(entries)) == Named(entries)
  {
    if entries == [] {
      assert Lines("") == [""];
      assert Trim("") == "";
    } else {
      EntryLinesFree(entries);
      SplitJoin(EntryLines(entries), '\n');
      ParseEntryLines(entries, None);
    }
  }

  /** The text of the two-channel example, one literal per line. */
  const TwoChannelText: string :=
    "#EXTINF:-1,Channel A" + "\n" + "http://example.com/a.m3u8" + "\n"
    + "#EXTINF:-1,Channel B" + "\n" + "http://example.com/b.ts"

  /** The example text is what the writer produces for its two entries. */
  lemma TwoChannelRender()
    ensures Render([("Channel A", "http://example.com/a.m3u8"), ("Channel B", "http://example.com/b.ts")])
         == TwoChannelText
  {
    var entries := [("Channel A", "http://example.com/a.m3u8"), ("Channel B", "http://example.com/b.ts")];
    var a, ua := ExtinfLine("Channel A"), "http://example.com/a.m3u8";
    var b, ub := ExtinfLine("Channel B"), "http://example.com/b.ts";
    assert a == "#EXTINF:-1,Channel A";
    assert b == "#EXTINF:-1,Channel B";
    assert entries[1..] == [("Channel B", ub)];
    assert EntryLines(entries[1..]) == [b, ub];
    var lines := EntryLines(entries);
    assert lines == [a, ua, b, ub];
    assert lines[1..][1..][1..] == [ub];
    assert Join(lines[1..][1..], '\n') == b + "\n" + ub;
    assert Join(lines[1..], '\n') == ua + "\n" + (b + "\n" + ub);
    assert Join(lines, '\n') == a + "\n" + (ua + "\n" + (b + "\n" + ub));
  }

  /** The two-channel example: `Channel A` on an HLS URL and `Channel B` on a transport-stream URL. */
  lemma TwoChannelExample()
    ensures Parse(TwoChannelText)
         == [Channel(Some("Channel A"), "http://example.com/a.m3u8"),
             Channel(Some("Channel B"), "http://example.com/b.ts")]
  {
    var entries := [("Channel A", "http://example.com/a.m3u8"), ("Channel B", "http://example.com/b.ts")];
    forall k | 0 <= k < |entries| ensures WellFormedEntry(entries[k].0, entries[k].1) {
      var (name, url) := entries[k];
      assert url[..4] == "http";
    }
    RenderParse(entries);
    TwoChannelRender();
  }

  /** A lone URL line yields one record whose name is absent. */
  lemma LoneUrl(url: string)
    requires IsUrl(url) && url == Trim(url) && '\n' !in url
    ensures Parse(url) == [Channel(None, url)]
  {
    SplitFree(url, '\n');
    UrlIsNotExtinf(url);
    ParseFromCons(url, [], None);
    assert [url] + [] == [url];
  }
}
