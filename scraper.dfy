/** The record and playlist logic of scraper.py: reading artist/title pairs out of the text of
    the WTTS "on air" page, and adding the tracks found for them to a Spotify playlist.

    The page's DOM is an input (the texts of the nodes after the first `h4`), and so is every
    answer of the Spotify Web API: the user's playlists, the search results and the pages of a
    playlist's tracks. The one call that changes the library, adding tracks to a playlist, is
    recorded in the order it is made. */
module Scraper {
  import opened Wrappers
  import opened Text

  /** `Record(artist, song)`. */
  datatype Record = Record(artist: string, song: string)

  // ------------------------------------------------------------ unescaping

  /** The replacements of `_unescape`, in the order the dictionary lists them. */
  const Replacements: seq<(string, string)> :=
    [("&lt;", "<"), ("&gt;", ">"), ("&amp;", "&"), ("&#8220;", ""), ("&#8221;", ""), ("&#8217;", "'")]

  /** Every pattern is a non-empty entity starting with `&`, replaced by something shorter. */
  predicate EntityRules(rules: seq<(string, string)>)
  {
    forall k :: 0 <= k < |rules| ==>
      |rules[k].0| > 0 && rules[k].0[0] == '&' && |rules[k].1| <= |rules[k].0|
  }

  lemma ReplacementsAreEntities()
    ensures EntityRules(Replacements)
  {
  }

  /** The `reduce` of `_unescape`: each replacement applied to the result of the previous one. */
  function ReplaceAll(text: string, rules: seq<(string, string)>): string
    requires EntityRules(rules)
    decreases |rules|
  {
    if |rules| == 0 then text
    else ReplaceAll(Replace(text, rules[0].0, rules[0].1), rules[1..])
  }

  /** `_unescape`. */
  function Unescape(text: string): string
  {
    ReplacementsAreEntities();
    ReplaceAll(text, Replacements)
  }

  /** The replacements are applied one after the other, so a double-escaped entity comes out
      escaped once: `&amp;lt;` becomes `&lt;`, since the `&` that the `&amp;` replacement
      produces is not looked at again by the earlier ones, and the later ones need a `#`. */
  lemma UnescapeIsSequential(t: string)
    requires '&' !in t && '#' !in t
    ensures Unescape("&amp;" + t) == "&" + t
  {
    EscapedAmpersand(t);
    LoneAmpersand(t);
  }

  /** The first three replacements turn an escaped ampersand into a plain one. */
  lemma EscapedAmpersand(t: string)
    requires '&' !in t
    ensures ReplaceAll("&amp;" + t, Replacements) == ReplaceAll("&" + t, Replacements[3..])
  {
    ReplacementsAreEntities();
    var r := Replacements;
    var s := "&amp;" + t;
    assert s[1] == 'a' && r[0].0[1] == 'l' && r[1].0[1] == 'g';
    assert '&' !in s[1..] by { assert s[1..] == "amp;" + t; }
    ReplaceMissAtStart(s, r[0].0, r[0].1, 1);
    ReplaceMissAtStart(s, r[1].0, r[1].1, 1);
    ReplaceHead(r[2].0, r[2].1, t);
    AbsentFirstChar(t, r[2].0);
    ReplaceAbsent(t, r[2].0, r[2].1);
  }

  /** The curly-quote replacements leave an ampersand alone when no `#` follows it. */
  lemma LoneAmpersand(t: string)
    requires '&' !in t && '#' !in t
    ensures ReplaceAll("&" + t, Replacements[3..]) == "&" + t
  {
    ReplacementsAreEntities();
    var r := Replacements[3..];
    var u := "&" + t;
    assert u[1..] == t;
    forall k | 0 <= k < |r| ensures Replace(u, r[k].0, r[k].1) == u {
      assert r[k].0[1] == '#';
      ReplaceMissAtStart(u, r[k].0, r[k].1, 1);
    }
    ReplaceAllSkip(u, r, |r|);
  }

  /** `&lt;` and `&gt;` become `<` and `>`, the curly quotes are deleted and the right single
      quote becomes an apostrophe: one of these entities between texts without `&` is replaced
      and nothing else changes. (`&amp;` is the one entity whose replacement is itself an `&`;
      `UnescapeIsSequential` covers it.) */
  lemma UnescapeEntity(a: string, k: nat, b: string)
    requires k < |Replacements| && k != 2 && '&' !in a && '&' !in b
    ensures Unescape(a + Replacements[k].0 + b) == a + Replacements[k].1 + b
  {
    EntityReached(a, k, b);
    EntityReplaced(a, k, b);
  }

  /** The replacements before an entity's own leave the text as it is. */
  lemma EntityReached(a: string, k: nat, b: string)
    requires k < |Replacements| && k != 2 && '&' !in a && '&' !in b
    ensures ReplaceAll(a + Replacements[k].0 + b, Replacements)
            == ReplaceAll(a + Replacements[k].0 + b, Replacements[k..])
  {
    ReplacementsAreEntities();
    var r := Replacements;
    var e := r[k].0;
    assert a + e + b == a + (e + b);
    forall j | 0 <= j < k ensures Replace(a + e + b, r[j].0, r[j].1) == a + e + b {
      EntityMiss(e, b, j, k);
      ReplaceAfterPrefix(a, e + b, r[j].0, r[j].1);
    }
    ReplaceAllSkip(a + e + b, r, k);
  }

  /** The entity's own replacement replaces it, and the later ones find no `&` left. */
  lemma EntityReplaced(a: string, k: nat, b: string)
    requires k < |Replacements| && k != 2 && '&' !in a && '&' !in b
    ensures ReplaceAll(a + Replacements[k].0 + b, Replacements[k..]) == a + Replacements[k].1 + b
  {
    ReplacementsAreEntities();
    var r := Replacements;
    var e := r[k].0;
    assert a + e + b == a + (e + b);
    ReplaceAfterPrefix(a, e + b, e, r[k].1);
    ReplaceHead(e, r[k].1, b);
    AbsentFirstChar(b, e);
    ReplaceAbsent(b, e, r[k].1);
    assert a + r[k].1 + b == a + (r[k].1 + b);
    assert '&' !in a + r[k].1 + b;
    assert r[k..][1..] == r[k + 1..];
    ReplaceAllWithoutAmpersand(a + r[k].1 + b, r[k + 1..]);
  }

  /** An entity followed by text without `&` is not matched by any replacement before its own. */
  lemma EntityMiss(e: string, b: string, j: nat, k: nat)
    requires k < |Replacements| && k != 2 && j < k && e == Replacements[k].0 && '&' !in b
    ensures Replace(e + b, Replacements[j].0, Replacements[j].1) == e + b
  {
    var pat := Replacements[j].0;
    assert (e + b)[1..] == e[1..] + b;
    assert '&' !in e[1..];
    if j < 3 {
      ReplaceMissAtStart(e + b, pat, Replacements[j].1, 1);
    } else if e[4] != pat[4] {
      ReplaceMissAtStart(e + b, pat, Replacements[j].1, 4);
    } else {
      ReplaceMissAtStart(e + b, pat, Replacements[j].1, 5);
    }
  }

  /** Replacements that leave a text as it is can be skipped. */
  lemma {:induction false} ReplaceAllSkip(text: string, rules: seq<(string, string)>, k: nat)
    requires EntityRules(rules) && k <= |rules|
    requires forall j :: 0 <= j < k ==> Replace(text, rules[j].0, rules[j].1) == text
    ensures ReplaceAll(text, rules) == ReplaceAll(text, rules[k..])
    decreases k
  {
    if k > 0 {
      assert rules[1..][k - 1..] == rules[k..];
      ReplaceAllSkip(text, rules[1..], k - 1);
    }
  }

  /** A text without `&` comes through any entity replacements as it is. */
  lemma ReplaceAllWithoutAmpersand(text: string, rules: seq<(string, string)>)
    requires EntityRules(rules) && '&' !in text
    ensures ReplaceAll(text, rules) == text
  {
    forall k | 0 <= k < |rules| ensures !Occurs(text, rules[k].0) {
      AbsentFirstChar(text, rules[k].0);
    }
    ReplaceAllAbsent(text, rules);
  }

  /** A text in which none of the patterns occurs is returned unchanged. */
  lemma {:induction false} ReplaceAllAbsent(text: string, rules: seq<(string, string)>)
    requires EntityRules(rules)
    requires forall k :: 0 <= k < |rules| ==> !Occurs(text, rules[k].0)
    ensures ReplaceAll(text, rules) == text
  {
    if |rules| > 0 {
      ReplaceAbsent(text, rules[0].0, rules[0].1);
      ReplaceAllAbsent(text, rules[1..]);
    }
  }

  lemma UnescapeWithoutEntities(text: string)
    requires forall k :: 0 <= k < |Replacements| ==> !Occurs(text, Replacements[k].0)
    ensures Unescape(text) == text
  {
    ReplacementsAreEntities();
    ReplaceAllAbsent(text, Replacements);
  }

  /** In particular a text without `&` comes through as it is. */
  lemma UnescapeWithoutAmpersand(text: string)
    requires '&' !in text
    ensures Unescape(text) == text
  {
    ReplacementsAreEntities();
    ReplaceAllWithoutAmpersand(text, Replacements);
  }

  lemma {:induction false} ReplaceAllShrinks(text: string, rules: seq<(string, string)>)
    requires EntityRules(rules)
    ensures |ReplaceAll(text, rules)| <= |text|
    decreases |rules|
  {
    if |rules| > 0 {
      ReplaceShrinks(text, rules[0].0, rules[0].1);
      ReplaceAllShrinks(Replace(text, rules[0].0, rules[0].1), rules[1..]);
    }
  }

  /** Unescaping never lengthens a text: every entity is replaced by something shorter. */
  lemma UnescapeShrinks(text: string)
    ensures |Unescape(text)| <= |text|
  {
    ReplacementsAreEntities();
    ReplaceAllShrinks(text, Replacements);
  }

  // --------------------------------------------------------- artist/title lines

  const SunKing := "(Sun King Studio 92)"

  /** The title stored for a line: the studio suffix cut off once when present. */
  function Title(line: string): (r: string)
    ensures |r| <= |line| && r == line[..|r|]
  {
    if EndsWith(line, SunKing) then line[..|line| - |SunKing|] else line
  }

  /** A title with the suffix has exactly that suffix removed; any other is kept as it is. */
  lemma TitleSuffix(line: string)
    ensures EndsWith(line, SunKing) ==> Title(line) + SunKing == line
    ensures !EndsWith(line, SunKing) ==> Title(line) == line
  {
    if EndsWith(line, SunKing) {
      assert line == line[..|line| - |SunKing|] + line[|line| - |SunKing|..];
    }
  }

  /** The stripped lines longer than one character, in order: the lines that count. */
  function Kept(lines: seq<string>): (kept: seq<string>)
    ensures |kept| <= |lines|
    ensures forall k :: 0 <= k < |kept| ==> |kept[k]| > 1
  {
    if |lines| == 0 then []
    else
      var line := Strip(lines[|lines| - 1]);
      Kept(lines[..|lines| - 1]) + (if |line| > 1 then [line] else [])
  }

  /** Kept lines grow at the end, one line at a time. */
  lemma KeptSnoc(lines: seq<string>, line: string)
    ensures Kept(lines + [line]) == Kept(lines) + (if |Strip(line)| > 1 then [Strip(line)] else [])
  {
    assert (lines + [line])[..|lines|] == lines;
  }

  /** A line that strips to at most one character is ignored wherever it stands: it does not
      move the artist/title alternation. */
  lemma {:induction false} ShortLineIgnored(a: seq<string>, line: string, b: seq<string>)
    requires |Strip(line)| <= 1
    ensures Kept(a + [line] + b) == Kept(a + b)
  {
    if |b| == 0 {
      assert a + [line] + b == a + [line];
      assert a + b == a;
      KeptSnoc(a, line);
    } else {
      var init, last := b[..|b| - 1], b[|b| - 1];
      ShortLineIgnored(a, line, init);
      assert a + [line] + b == (a + [line] + init) + [last];
      assert a + b == (a + init) + [last];
      KeptSnoc(a + [line] + init, last);
      KeptSnoc(a + init, last);
    }
  }

  /** The records of the kept lines: lines 0 and 1 give the first, as artist and title, lines
      2 and 3 the next, and so on; a last artist without a title gives nothing. */
  function PairUp(kept: seq<string>): seq<Record>
  {
    if |kept| < 2 then [] else [Record(kept[0], Title(kept[1]))] + PairUp(kept[2..])
  }

  /** k kept lines give k / 2 records, rounded down. */
  lemma {:induction false} PairUpCount(kept: seq<string>)
    ensures |PairUp(kept)| == |kept| / 2
  {
    if |kept| >= 2 {
      PairUpCount(kept[2..]);
    }
  }

  /** The m-th record pairs kept line 2m as artist with kept line 2m + 1 as title. */
  lemma {:induction false} PairUpAt(kept: seq<string>, m: nat)
    requires 2 * m + 1 < |kept|
    ensures |PairUp(kept)| > m
    ensures PairUp(kept)[m] == Record(kept[2 * m], Title(kept[2 * m + 1]))
  {
    PairUpCount(kept);
    if m > 0 {
      PairUpAt(kept[2..], m - 1);
    }
  }

  /** A kept line at an even position only names an artist. */
  lemma {:induction false} PairUpAppendEven(kept: seq<string>, line: string)
    requires |kept| % 2 == 0
    ensures PairUp(kept + [line]) == PairUp(kept)
  {
    if |kept| > 0 {
      assert (kept + [line])[2..] == kept[2..] + [line];
      PairUpAppendEven(kept[2..], line);
    }
  }

  /** A kept line at an odd position completes one record with the artist just before it. */
  lemma {:induction false} PairUpAppendOdd(kept: seq<string>, line: string)
    requires |kept| % 2 == 1
    ensures PairUp(kept + [line]) == PairUp(kept) + [Record(kept[|kept| - 1], Title(line))]
  {
    if |kept| == 1 {
      assert (kept + [line])[2..] == [];
    } else {
      assert (kept + [line])[2..] == kept[2..] + [line];
      PairUpAppendOdd(kept[2..], line);
    }
  }

  /** The records one node's text yields. */
  function NodeRecords(text: string): seq<Record>
  {
    PairUp(Kept(Split(Unescape(text), '\n')))
  }

  /** The records of all nodes, node after node. */
  function AllRecords(nodes: seq<string>): seq<Record>
  {
    if |nodes| == 0 then [] else AllRecords(nodes[..|nodes| - 1]) + NodeRecords(nodes[|nodes| - 1])
  }

  /** Where the inner loop stands after the kept lines `kept`: the count is their number, an
      odd count has the last of them as the pending artist, and their records follow `before`. */
  ghost predicate Reading(kept: seq<string>, i: nat, artist: Option<string>, before: seq<Record>,
                          records: seq<Record>)
  {
    i == |kept| && (i % 2 == 1 ==> artist == Some(kept[i - 1])) && records == before + PairUp(kept)
  }

  lemma AllRecordsSnoc(nodes: seq<string>, n: nat)
    requires n < |nodes|
    ensures AllRecords(nodes[..n + 1]) == AllRecords(nodes[..n]) + NodeRecords(nodes[n])
  {
    assert nodes[..n + 1][..n] == nodes[..n];
  }

  lemma AppendAssociates(a: seq<Record>, b: seq<Record>, c: seq<Record>)
    ensures (a + b) + c == a + (b + c)
  {
  }

  /** `WTTSParser`, with the page's nodes given as their texts. */
  class WTTSParser {
    var records: seq<Record>

    constructor ()
      ensures records == []
    {
      records := [];
    }

    /** `parseArtistSongList`: append the records of every node; what was there before stays,
        in place, in front. */
    method ParseArtistSongList(nodes: seq<string>)
      modifies this
      ensures records == old(records) + AllRecords(nodes)
    {
      var n := 0;
      while n < |nodes|
        invariant 0 <= n <= |nodes|
        invariant records == old(records) + AllRecords(nodes[..n])
      {
        ghost var parsed := AllRecords(nodes[..n]);
        ParseNode(nodes[n]);
        AllRecordsSnoc(nodes, n);
        AppendAssociates(old(records), parsed, NodeRecords(nodes[n]));
        n := n + 1;
      }
      assert nodes[..n] == nodes;
    }

    /** The body of the outer loop for one node: unescape its text, split it into lines and
        read the lines. */
    method ParseNode(node: string)
      modifies this
      ensures records == old(records) + NodeRecords(node)
    {
      ParseLines(Split(Unescape(node), '\n'));
    }

    /** The inner loop over the lines of one node: the counter starts at 0 and the artist at
        `None`; a kept line at an even count names the artist, one at an odd count appends the
        record of that artist and this title. */
    method ParseLines(text: seq<string>)
      modifies this
      ensures records == old(records) + PairUp(Kept(text))
    {
      var i := 0;
      var artist: Option<string> := None;
      ghost var kept: seq<string> := [];
      var j := 0;
      while j < |text|
        invariant 0 <= j <= |text|
        invariant kept == Kept(text[..j])
        invariant Reading(kept, i, artist, old(records), records)
      {
        var line := Strip(text[j]);
        assert text[..j + 1] == text[..j] + [text[j]];
        KeptSnoc(text[..j], text[j]);
        i, artist := ReadLine(kept, line, i, artist, old(records));
        if |line| > 1 {
          kept := kept + [line];
        }
        j := j + 1;
      }
      assert text[..j] == text;
    }

    /** One pass of the inner loop: a line of more than one character is counted, and names
        the artist at an even count or completes a record at an odd count. */
    method ReadLine(ghost kept: seq<string>, line: string, i: nat, artist: Option<string>,
                    ghost before: seq<Record>)
      returns (i': nat, artist': Option<string>)
      requires Reading(kept, i, artist, before, records)
      modifies this
      ensures Reading(if |line| > 1 then kept + [line] else kept, i', artist', before, records)
    {
      i', artist' := i, artist;
      if |line| > 1 {
        if i % 2 == 0 {
          PairUpAppendEven(kept, line);
          artist' := Some(line);
        } else {
          PairUpAppendOdd(kept, line);
          var title := line;
          if EndsWith(line, SunKing) {
            title := line[..|line| - |SunKing|];
          }
          records := records + [Record(artist.value, title)];
        }
        i' := i + 1;
      }
    }
  }

  // -------------------------------------------------------------- playlists

  const MaxSearchHits := 2

  /** One entry of `user_playlists(id)["items"]`. */
  datatype Playlist = Playlist(name: string, id: string)

  /** The arguments of `sp.search(q, limit, offset, type)`. */
  datatype SearchQuery = SearchQuery(q: string, limit: nat, offset: nat, kind: string)

  /** The search `_get_record_by_name` runs for a record. */
  function QueryFor(r: Record): SearchQuery
  {
    SearchQuery("artist:" + r.artist + " title:" + r.song, MaxSearchHits, 0, "track")
  }

  /** The tracks of a playlist as the API pages them: the first page, then what `next` gives
      until it gives `None`. Each page is the track ids it lists. */
  datatype TrackPages = TrackPages(first: seq<string>, following: seq<seq<string>>)

  function AllPages(p: TrackPages): seq<seq<string>>
  {
    [p.first] + p.following
  }

  /** `set(ids)`. */
  function Members(ids: seq<string>): set<string>
  {
    set t | t in ids
  }

  lemma MembersSnoc(ids: seq<string>, k: nat)
    requires k < |ids|
    ensures Members(ids[..k + 1]) == Members(ids[..k]) + {ids[k]}
  {
    assert ids[..k + 1] == ids[..k] + [ids[k]];
  }

  /** The ids listed on any of the pages. */
  function Seen(pages: seq<seq<string>>): set<string>
  {
    if |pages| == 0 then {} else Seen(pages[..|pages| - 1]) + Members(pages[|pages| - 1])
  }

  /** An id is seen exactly when some page lists it. */
  lemma {:induction false} SeenListed(pages: seq<seq<string>>)
    ensures forall t :: t in Seen(pages) <==> exists k :: 0 <= k < |pages| && t in pages[k]
  {
    if |pages| > 0 {
      var init := pages[..|pages| - 1];
      SeenListed(init);
      assert forall k :: 0 <= k < |init| ==> init[k] == pages[k];
    }
  }

  /** The id of the first playlist with the given name, `None` when no playlist has it. */
  function PlaylistId(playlists: seq<Playlist>, name: string): Option<string>
  {
    if |playlists| == 0 then None
    else if playlists[0].name == name then Some(playlists[0].id)
    else PlaylistId(playlists[1..], name)
  }

  /** `None` exactly when no playlist has the name; otherwise the id of the first that has it. */
  lemma {:induction false} PlaylistIdFirst(playlists: seq<Playlist>, name: string)
    ensures PlaylistId(playlists, name).None? <==> forall k :: 0 <= k < |playlists| ==> playlists[k].name != name
    ensures PlaylistId(playlists, name).Some? ==>
              exists k :: 0 <= k < |playlists| && playlists[k].name == name
                          && playlists[k].id == PlaylistId(playlists, name).value
                          && forall m :: 0 <= m < k ==> playlists[m].name != name
  {
    if |playlists| > 0 && playlists[0].name != name {
      var rest := playlists[1..];
      PlaylistIdFirst(rest, name);
      assert forall k :: 0 <= k < |rest| ==> rest[k] == playlists[k + 1];
      if PlaylistId(rest, name).Some? {
        var k :| 0 <= k < |rest| && rest[k].name == name && rest[k].id == PlaylistId(rest, name).value
                 && forall m :: 0 <= m < k ==> rest[m].name != name;
        assert playlists[k + 1] == rest[k];
        assert forall m :: 0 <= m < k + 1 ==> playlists[m].name != name by {
          forall m | 0 <= m < k + 1 ensures playlists[m].name != name {
            if m > 0 { assert playlists[m] == rest[m - 1]; }
          }
        }
      } else {
        forall k | 0 <= k < |playlists| ensures playlists[k].name != name {
          if k > 0 { assert playlists[k] == rest[k - 1]; }
        }
      }
    } else if |playlists| > 0 {
      assert playlists[0].name == name;
    }
  }

  lemma SeenSnoc(pages: seq<seq<string>>, n: nat)
    requires n < |pages|
    ensures Seen(pages[..n + 1]) == Seen(pages[..n]) + Members(pages[n])
  {
    assert pages[..n + 1][..n] == pages[..n];
  }

  /** One `user_playlist_add_tracks` call. */
  datatype AddTracks = AddTracks(user: string, playlist: string, tracks: set<string>)

  /** The ids found for the records, in the records' order, records without a hit skipped. */
  function Hits(records: seq<Record>, search: SearchQuery -> seq<string>): (ids: seq<string>)
    ensures |ids| <= |records|
  {
    if |records| == 0 then []
    else
      var hits := search(QueryFor(records[|records| - 1]));
      Hits(records[..|records| - 1], search) + (if |hits| < 1 then [] else [hits[0]])
  }

  lemma HitsSnoc(records: seq<Record>, k: nat, search: SearchQuery -> seq<string>)
    requires k < |records|
    ensures var hits := search(QueryFor(records[k]));
            Hits(records[..k + 1], search) == Hits(records[..k], search) + (if |hits| < 1 then [] else [hits[0]])
  {
    assert records[..k + 1][..k] == records[..k];
  }

  /** Every record with a hit contributes its first hit, and only those contribute. */
  lemma {:induction false} HitsFromRecords(records: seq<Record>, search: SearchQuery -> seq<string>)
    ensures forall t :: t in Hits(records, search) ==>
              exists k :: 0 <= k < |records| && |search(QueryFor(records[k]))| > 0
                          && search(QueryFor(records[k]))[0] == t
    ensures forall k :: 0 <= k < |records| && |search(QueryFor(records[k]))| > 0 ==>
              search(QueryFor(records[k]))[0] in Hits(records, search)
    ensures (forall k :: 0 <= k < |records| ==> |search(QueryFor(records[k]))| > 0) ==>
              |Hits(records, search)| == |records|
  {
    if |records| > 0 {
      var init := records[..|records| - 1];
      HitsFromRecords(init, search);
      forall t | t in Hits(records, search)
        ensures exists k :: 0 <= k < |records| && |search(QueryFor(records[k]))| > 0
                            && search(QueryFor(records[k]))[0] == t
      {
        if t in Hits(init, search) {
          var k :| 0 <= k < |init| && |search(QueryFor(init[k]))| > 0 && search(QueryFor(init[k]))[0] == t;
          assert init[k] == records[k];
        } else {
          assert |search(QueryFor(records[|records| - 1]))| > 0;
        }
      }
      forall k | 0 <= k < |records| && |search(QueryFor(records[k]))| > 0
        ensures search(QueryFor(records[k]))[0] in Hits(records, search)
      {
        if k < |init| {
          assert init[k] == records[k];
        }
      }
      if forall k :: 0 <= k < |records| ==> |search(QueryFor(records[k]))| > 0 {
        assert forall k :: 0 <= k < |init| ==> init[k] == records[k];
      }
    }
  }

  /** The ids worth adding: given, and on none of the playlist's pages. */
  function Uniques(ids: seq<string>, pages: TrackPages): set<string>
  {
    Members(ids) - Seen(AllPages(pages))
  }

  /** The add calls for the given ids: one call with the new ids, or none when there are none. */
  function AddFor(user: string, playlistId: string, ids: seq<string>, pages: TrackPages): (calls: seq<AddTracks>)
    ensures |calls| <= 1
    ensures |calls| == 0 <==> Uniques(ids, pages) == {}
  {
    var toAdd := Uniques(ids, pages);
    if |toAdd| < 1 then [] else [AddTracks(user, playlistId, toAdd)]
  }

  /** `SpotifyEditor`, with the API's answers as inputs: the user id `me()` gives, the user's
      playlists, the search results and the track pages of each playlist. */
  class SpotifyEditor {
    const userId: string
    const playlists: seq<Playlist>
    const search: SearchQuery -> seq<string>
    const tracks: string -> TrackPages
    var calls: seq<AddTracks>

    constructor (userId: string, playlists: seq<Playlist>, search: SearchQuery -> seq<string>,
                 tracks: string -> TrackPages)
      ensures this.userId == userId && this.playlists == playlists
      ensures this.search == search && this.tracks == tracks
      ensures calls == []
    {
      this.userId := userId;
      this.playlists := playlists;
      this.search := search;
      this.tracks := tracks;
      calls := [];
    }

    /** `get_playlist_id_by_name`: the id of the first playlist with that name. */
    method GetPlaylistIdByName(name: string) returns (r: Option<string>)
      ensures r == PlaylistId(playlists, name)
    {
      var k := 0;
      while k < |playlists|
        invariant 0 <= k <= |playlists|
        invariant PlaylistId(playlists[k..], name) == PlaylistId(playlists, name)
      {
        if playlists[k].name == name {
          return Some(playlists[k].id);
        }
        assert playlists[k..][1..] == playlists[k + 1..];
        k := k + 1;
      }
      return None;
    }

    /** `_get_record_by_name`: the first hit of the search for "artist:A title:S", at most two
        hits asked for; `None` without hits. */
    method GetRecordByName(record: Record) returns (r: Option<string>)
      ensures var hits := search(QueryFor(record));
              (r.None? <==> |hits| == 0) && (r.Some? ==> r.value == hits[0])
    {
      var items := search(SearchQuery("artist:" + record.artist + " title:" + record.song,
                                      MaxSearchHits, 0, "track"));
      if |items| < 1 {
        return None;
      }
      return Some(items[0]);
    }

    /** `add_uniques_to_playlist`: collect the ids on every page of the playlist, then add the
        given ids not among them in one call, or make no call when there are none. */
    method AddUniquesToPlaylist(playlistId: string, ids: seq<string>)
      modifies this
      ensures calls == old(calls) + AddFor(userId, playlistId, ids, tracks(playlistId))
    {
      var existing: set<string> := {};
      var newItems := Members(ids);
      var pl := tracks(playlistId);
      var paging := pl.first;
      var next := 0;
      while true
        invariant 0 <= next <= |pl.following|
        invariant paging == AllPages(pl)[next]
        invariant existing == Seen(AllPages(pl)[..next])
        invariant calls == old(calls)
        decreases |pl.following| - next
      {
        var k := 0;
        ghost var before := existing;
        while k < |paging|
          invariant 0 <= k <= |paging|
          invariant existing == before + Members(paging[..k])
          invariant calls == old(calls)
        {
          existing := existing + {paging[k]};
          MembersSnoc(paging, k);
          k := k + 1;
        }
        assert paging[..k] == paging;
        SeenSnoc(AllPages(pl), next);
        if next == |pl.following| {
          assert AllPages(pl)[..next + 1] == AllPages(pl);
          break;
        }
        paging := pl.following[next];
        next := next + 1;
      }
      var toAdd := newItems - existing;
      if |toAdd| < 1 {
        return;
      }
      calls := calls + [AddTracks(userId, playlistId, toAdd)];
    }

    /** `add_records_to_playlist`: nothing happens when no playlist has the name; otherwise
        the first hit of every record that has one is offered to `AddUniquesToPlaylist`. */
    method AddRecordsToPlaylist(records: seq<Record>, playlist: string)
      modifies this
      ensures match PlaylistId(playlists, playlist)
              case None => calls == old(calls)
              case Some(id) => calls == old(calls) + AddFor(userId, id, Hits(records, search), tracks(id))
    {
      var pId := GetPlaylistIdByName(playlist);
      if pId.None? {
        return;
      }
      var ids := [];
      var k := 0;
      while k < |records|
        invariant 0 <= k <= |records|
        invariant ids == Hits(records[..k], search)
        invariant calls == old(calls)
      {
        var recordId := GetRecordByName(records[k]);
        HitsSnoc(records, k, search);
        if recordId.Some? {
          ids := ids + [recordId.value];
        }
        k := k + 1;
      }
      assert records[..k] == records;
      AddUniquesToPlaylist(pId.value, ids);
    }
  }

  /** The ids added are exactly the given ones that no page of the playlist lists. */
  lemma UniquesExactly(ids: seq<string>, pages: TrackPages)
    ensures forall t :: t in Uniques(ids, pages) <==>
              t in ids && t !in pages.first && forall k :: 0 <= k < |pages.following| ==> t !in pages.following[k]
  {
    var all := AllPages(pages);
    SeenListed(all);
    assert all[0] == pages.first;
    assert forall k :: 0 <= k < |pages.following| ==> all[k + 1] == pages.following[k];
  }
}
