/** The files of one export: their names, writing the rows, and freeing what no manifest names. */
module ExportFiles {
  import opened Common
  import opened Bytes

  type Text = seq<byte>

  // ---- Names ----

  const MANIFEST_FILE := "manifest.json"
  const EVENTS_PREFIX := "events-"
  const EVENTS_SUFFIX := ".jsonl"
  const LEGACY_EVENTS_FILE := "events.jsonl"
  const STAGED_SUFFIX := ".partial"
  const LOCK_FILE := ".export.lock"

  predicate LowerHex(c: char) {
    '0' <= c <= '9' || 'a' <= c <= 'f'
  }

  /** The one rendering of an id that the exporter writes: lower-case hex in dashed groups. */
  predicate IsExportIdText(t: string) {
    && |t| == 36
    && forall i :: 0 <= i < 36 ==> if i == 8 || i == 13 || i == 18 || i == 23 then t[i] == '-' else LowerHex(t[i])
  }

  function EventsFileName(id: string): string {
    EVENTS_PREFIX + id + EVENTS_SUFFIX
  }

  function StagedName(base: string, id: string): string {
    base + "." + id + STAGED_SUFFIX
  }

  function CutPrefix(s: string, prefix: string): Option<string> {
    if prefix <= s then Some(s[|prefix|..]) else None
  }

  predicate HasSuffix(s: string, suffix: string) {
    |suffix| <= |s| && s[|s| - |suffix|..] == suffix
  }

  function CutSuffix(s: string, suffix: string): Option<string> {
    if HasSuffix(s, suffix) then Some(s[..|s| - |suffix|]) else None
  }

  predicate StagedForExport(name: string, base: string) {
    var id := CutPrefix(name, base + ".");
    id.Some? && IsExportIdText(id.value)
  }

  predicate ExporterOwnedFile(name: string) {
    if name == LEGACY_EVENTS_FILE then true
    else
      var afterPrefix := CutPrefix(name, EVENTS_PREFIX);
      if afterPrefix.Some? then
        var id := CutSuffix(afterPrefix.value, EVENTS_SUFFIX);
        id.Some? && IsExportIdText(id.value)
      else
        var staged := CutSuffix(name, STAGED_SUFFIX);
        staged.Some? && (StagedForExport(staged.value, MANIFEST_FILE)
            || StagedForExport(staged.value, LEGACY_EVENTS_FILE))
  }

  lemma CutPrefixGives(s: string, prefix: string, rest: string)
    ensures CutPrefix(s, prefix) == Some(rest) <==> s == prefix + rest
  {
    if prefix <= s {
      assert s == prefix + s[|prefix|..];
    }
  }

  lemma CutSuffixGives(s: string, suffix: string, front: string)
    ensures CutSuffix(s, suffix) == Some(front) <==> s == front + suffix
  {
    if HasSuffix(s, suffix) {
      assert s == s[..|s| - |suffix|] + suffix;
    }
    if s == front + suffix {
      assert s[|front|..] == suffix && s[..|front|] == front;
    }
  }

  /** A name that an export with this id writes, now or in an earlier release. */
  predicate WrittenBy(name: string, id: string) {
    name == EventsFileName(id) || name == StagedName(MANIFEST_FILE, id) || name == StagedName(LEGACY_EVENTS_FILE, id)
  }

  lemma StagedForGives(name: string, base: string, id: string)
    requires IsExportIdText(id) && name == StagedName(base, id)
    ensures CutSuffix(name, STAGED_SUFFIX).Some? && StagedForExport(CutSuffix(name, STAGED_SUFFIX).value, base)
  {
    CutSuffixGives(name, STAGED_SUFFIX, base + "." + id);
    CutPrefixGives(base + "." + id, base + ".", id);
  }

  lemma StagedForTakes(name: string, base: string)
    requires CutSuffix(name, STAGED_SUFFIX).Some? && StagedForExport(CutSuffix(name, STAGED_SUFFIX).value, base)
    ensures exists id :: IsExportIdText(id) && name == StagedName(base, id)
  {
    var staged := CutSuffix(name, STAGED_SUFFIX).value;
    var id := CutPrefix(staged, base + ".").value;
    CutSuffixGives(name, STAGED_SUFFIX, staged);
    CutPrefixGives(staged, base + ".", id);
    assert IsExportIdText(id) && name == StagedName(base, id);
  }

  ghost predicate HexGroup(t: string, length: nat) {
    |t| == length && forall c :: c in t ==> c in "0123456789abcdef"
  }

  /** Five groups of lower-case hex digits between dashes. */
  ghost predicate DashedGroups(t: string) {
    exists a, b, c, d, e :: Grouped(t, a, b, c, d, e)
  }

  ghost predicate Grouped(t: string, a: string, b: string, c: string, d: string, e: string) {
    && HexGroup(a, 8) && HexGroup(b, 4) && HexGroup(c, 4) && HexGroup(d, 4) && HexGroup(e, 12)
    && t == a + "-" + b + "-" + c + "-" + d + "-" + e
  }

  lemma HexDigits(c: char)
    ensures LowerHex(c) <==> c in "0123456789abcdef"
  {
    var digits := "0123456789abcdef";
    assert forall i :: 0 <= i < 16 ==> digits[i] as int == if i < 10 then 48 + i else 87 + i;
    if LowerHex(c) {
      var i := if c <= '9' then c as int - 48 else c as int - 87;
      assert digits[i] == c;
    }
  }

  lemma GroupIsHex(t: string, from: nat, to: nat)
    requires from <= to <= |t| && forall i :: from <= i < to ==> LowerHex(t[i])
    ensures HexGroup(t[from..to], to - from)
  {
    forall c | c in t[from..to] ensures c in "0123456789abcdef" {
      HexDigits(c);
    }
  }

  lemma IdTextIsDashedGroups(t: string)
    requires IsExportIdText(t)
    ensures DashedGroups(t)
  {
    var a, b, c, d, e := t[0..8], t[9..13], t[14..18], t[19..23], t[24..36];
    GroupIsHex(t, 0, 8);
    GroupIsHex(t, 9, 13);
    GroupIsHex(t, 14, 18);
    GroupIsHex(t, 19, 23);
    GroupIsHex(t, 24, 36);
    assert t == a + "-" + b + "-" + c + "-" + d + "-" + e;
    assert Grouped(t, a, b, c, d, e);
  }

  lemma DashedGroupsAreIdText(t: string)
    requires DashedGroups(t)
    ensures IsExportIdText(t)
  {
    var a, b, c, d, e :| Grouped(t, a, b, c, d, e);
    assert |t| == 36 && t[8] == '-' && t[13] == '-' && t[18] == '-' && t[23] == '-';
    assert t[0..8] == a && t[9..13] == b && t[14..18] == c && t[19..23] == d && t[24..36] == e;
    forall i | 0 <= i < 36 && i != 8 && i != 13 && i != 18 && i != 23 ensures LowerHex(t[i]) {
      HexDigits(t[i]);
      assert i < 8 ==> t[i] == a[i];
      assert 9 <= i < 13 ==> t[i] == b[i - 9];
      assert 14 <= i < 18 ==> t[i] == c[i - 14];
      assert 19 <= i < 23 ==> t[i] == d[i - 19];
      assert 24 <= i ==> t[i] == e[i - 24];
    }
  }

  /** The names of an export, in full. */
  ghost predicate NameOf(name: string, id: string) {
    || name == "events-" + id + ".jsonl"
    || name == "manifest.json." + id + ".partial" || name == "events.jsonl." + id + ".partial"
  }

  lemma NamesInFull(name: string, id: string)
    ensures WrittenBy(name, id) <==> NameOf(name, id)
  {
    assert MANIFEST_FILE + "." == "manifest.json." && LEGACY_EVENTS_FILE + "." == "events.jsonl.";
    assert StagedName(MANIFEST_FILE, id) == "manifest.json." + id + ".partial";
    assert StagedName(LEGACY_EVENTS_FILE, id) == "events.jsonl." + id + ".partial";
    assert EventsFileName(id) == "events-" + id + ".jsonl";
  }

  /** Reclaiming is confined to names an export produced: the fixed old one, or one that carries an id. */
  lemma OwnedExactly(name: string)
    ensures ExporterOwnedFile(name) <==> name == LEGACY_EVENTS_FILE || exists id ::
              IsExportIdText(id) && WrittenBy(name, id)
    ensures ExporterOwnedFile(name) <==> name == "events.jsonl" || exists id :: DashedGroups(id) && NameOf(name, id)
  {
    forall id ensures IsExportIdText(id) && WrittenBy(name, id) <==> DashedGroups(id) && NameOf(name, id) {
      NamesInFull(name, id);
      if IsExportIdText(id) {
        IdTextIsDashedGroups(id);
      }
      if DashedGroups(id) {
        DashedGroupsAreIdText(id);
      }
    }
    if ExporterOwnedFile(name) && name != LEGACY_EVENTS_FILE {
      OwnedCarriesId(name);
    }
    if id :| IsExportIdText(id) && WrittenBy(name, id) {
      WrittenIsOwned(name, id);
    }
  }

  lemma OwnedCarriesId(name: string)
    requires ExporterOwnedFile(name) && name != LEGACY_EVENTS_FILE
    ensures exists id :: IsExportIdText(id) && WrittenBy(name, id)
  {
    var afterPrefix := CutPrefix(name, EVENTS_PREFIX);
    if afterPrefix.Some? {
      var id := CutSuffix(afterPrefix.value, EVENTS_SUFFIX).value;
      CutPrefixGives(name, EVENTS_PREFIX, afterPrefix.value);
      CutSuffixGives(afterPrefix.value, EVENTS_SUFFIX, id);
      assert EVENTS_PREFIX + (id + EVENTS_SUFFIX) == EventsFileName(id);
      assert IsExportIdText(id) && WrittenBy(name, id);
    } else if StagedForExport(CutSuffix(name, STAGED_SUFFIX).value, MANIFEST_FILE) {
      StagedForTakes(name, MANIFEST_FILE);
      var id :| IsExportIdText(id) && name == StagedName(MANIFEST_FILE, id);
      assert WrittenBy(name, id);
    } else {
      StagedForTakes(name, LEGACY_EVENTS_FILE);
      var id :| IsExportIdText(id) && name == StagedName(LEGACY_EVENTS_FILE, id);
      assert WrittenBy(name, id);
    }
  }

  lemma WrittenIsOwned(name: string, id: string)
    requires IsExportIdText(id) && WrittenBy(name, id)
    ensures ExporterOwnedFile(name)
  {
    if name == EventsFileName(id) {
      assert name == EVENTS_PREFIX + (id + EVENTS_SUFFIX);
      CutPrefixGives(name, EVENTS_PREFIX, id + EVENTS_SUFFIX);
      CutSuffixGives(id + EVENTS_SUFFIX, EVENTS_SUFFIX, id);
    } else {
      var base := if name == StagedName(MANIFEST_FILE, id) then MANIFEST_FILE else LEGACY_EVENTS_FILE;
      StagedForGives(name, base, id);
      assert name[6] != '-' by {
        assert name[..|base|] == base;
        assert MANIFEST_FILE[6] == 's' && LEGACY_EVENTS_FILE[6] == '.';
      }
      assert EVENTS_PREFIX[6] == '-';
    }
  }

  /** The bundle's own fixed names are never candidates. */
  lemma FixedNamesAreNotOwned()
    ensures !ExporterOwnedFile("manifest.json") && !ExporterOwnedFile(".export.lock")
    ensures MANIFEST_FILE == "manifest.json" && LOCK_FILE == ".export.lock"
  {
    assert MANIFEST_FILE[0] == 'm' && LOCK_FILE[0] == '.' && EVENTS_PREFIX[0] == 'e';
    assert MANIFEST_FILE[12] == 'n' && LOCK_FILE[11] == 'k' && STAGED_SUFFIX[7] == 'l';
    assert MANIFEST_FILE[5..][7] == 'n' && LOCK_FILE[4..][7] == 'k';
  }

  /** No two exports write, truncate or rename the same file. */
  lemma NamesKeepExportsApart(id: string, other: string)
    requires IsExportIdText(id) && IsExportIdText(other) && id != other
    ensures forall name :: WrittenBy(name, id) ==> !WrittenBy(name, other)
  {
    forall name | WrittenBy(name, id) ensures !WrittenBy(name, other) {
      if name == EventsFileName(id) {
        assert name[7..43] == id && |name| == 49;
        assert EventsFileName(other)[7..43] == other;
        assert |StagedName(MANIFEST_FILE, other)| == 58 && |StagedName(LEGACY_EVENTS_FILE, other)| == 57;
      } else if name == StagedName(MANIFEST_FILE, id) {
        assert name[14..50] == id && |name| == 58;
        assert StagedName(MANIFEST_FILE, other)[14..50] == other;
        assert |EventsFileName(other)| == 49 && |StagedName(LEGACY_EVENTS_FILE, other)| == 57;
      } else {
        assert name[13..49] == id && |name| == 57;
        assert StagedName(LEGACY_EVENTS_FILE, other)[13..49] == other;
        assert |EventsFileName(other)| == 49 && |StagedName(MANIFEST_FILE, other)| == 58;
      }
    }
  }

  // ---- The name a manifest gives ----

  function TrimSlashes(s: string): string {
    if s != [] && s[|s| - 1] == '/' then TrimSlashes(s[..|s| - 1]) else s
  }

  function AfterLastSlash(s: string): string {
    if s == [] then [] else if s[|s| - 1] == '/' then [] else AfterLastSlash(s[..|s| - 1]) + [s[|s| - 1]]
  }

  /** The last element of a slash-separated path. */
  function Base(path: string): string {
    if path == "" then "."
    else var trimmed := TrimSlashes(path); if trimmed == "" then "/" else AfterLastSlash(trimmed)
  }

  function BundleEventsFileName(eventsFile: string): Option<string> {
    if eventsFile == "" then Some(LEGACY_EVENTS_FILE)
    else if eventsFile == "." || eventsFile == ".." || eventsFile != Base(eventsFile) || '/' in eventsFile
        || '\\' in eventsFile then None
    else Some(eventsFile)
  }

  lemma {:induction false} NoSlashIsLast(s: string)
    requires '/' !in s
    ensures AfterLastSlash(s) == s
  {
    if s != [] {
      NoSlashIsLast(s[..|s| - 1]);
    }
  }

  /** Exactly the plain names resolve, and to themselves: no manifest reaches outside its directory. */
  lemma PlainNamesResolve(eventsFile: string)
    requires eventsFile != ""
    ensures BundleEventsFileName(eventsFile) ==
            if eventsFile != "." && eventsFile != ".." && '/' !in eventsFile && '\\' !in eventsFile
            then Some(eventsFile) else None
  {
    if '/' !in eventsFile {
      NoSlashIsLast(eventsFile);
      assert TrimSlashes(eventsFile) == eventsFile;
    }
  }

  // ---- Freeing what no manifest names ----

  datatype Published = Absent | Broken | Present(eventsFile: string)

  /** The rows file to keep, or None when the reclaim must not run. */
  function Keep(p: Published): Option<string> {
    match p
    case Absent => Some("")
    case Broken => None
    case Present(name) => BundleEventsFileName(name)
  }

  class BundleDirectory {
    var files: set<string>
    const directories: set<string>

    constructor (files: set<string>, directories: set<string>)
      ensures this.files == files && this.directories == directories
    {
      this.files, this.directories := files, directories;
    }

    predicate Stays(name: string, keep: string, stuck: set<string>) {
      name in directories || name == keep || !ExporterOwnedFile(name) || name in stuck
    }

    /** Everything an export wrote goes, except what the published manifest names and what will not go. */
    method ReclaimAbandonedExportFiles(locked: bool, p: Published, stuck: set<string>)
      modifies this
      ensures !locked || Keep(p).None? ==> files == old(files)
      ensures locked && Keep(p).Some? ==>
                forall n :: n in files <==> n in old(files) && Stays(n, Keep(p).value, stuck)
      ensures locked && p.Absent? ==>
                forall n :: n in files <==> n in old(files) && (n in directories || n in stuck || !ExporterOwnedFile(n))
      ensures locked && p.Present? && BundleEventsFileName(p.eventsFile).Some? ==>
                forall n :: n in files <==>
                  && n in old(files)
                  && (n in directories || n in stuck || !ExporterOwnedFile(n)
                      || BundleEventsFileName(p.eventsFile) == Some(n))
      ensures p.Broken? ==> files == old(files)
    {
      if !locked {
        return;
      }
      var keep := Keep(p);
      if keep.None? {
        return;
      }
      var entries := files;
      while entries != {}
        invariant forall n :: n in files <==> n in old(files) && (n in entries || Stays(n, keep.value, stuck))
        decreases entries
      {
        var name :| name in entries;
        entries := entries - {name};
        if !Stays(name, keep.value, stuck) {
          files := files - {name};
        }
      }
    }
  }

  // ---- Writing the rows ----

  function Concat(parts: seq<Text>): Text {
    if parts == [] then [] else Concat(parts[..|parts| - 1]) + parts[|parts| - 1]
  }

  /** The encodings of the rows that encode. */
  function Values(rows: seq<Option<Text>>): seq<Text> {
    if rows == [] then []
    else
      var last := rows[|rows| - 1];
      Values(rows[..|rows| - 1]) + if last.Some? then [last.value] else []
  }

  lemma ConcatValues(rows: seq<Option<Text>>, last: Text)
    ensures Concat(Values(rows + [Some(last)])) == Concat(Values(rows)) + last
  {
    assert (rows + [Some(last)])[..|rows|] == rows;
    assert (Values(rows) + [last])[..|Values(rows)|] == Values(rows);
  }

  /** The file behind one export's rows name, with the writer that buffers it. */
  class RowsFile {
    const bufferSize: nat
    var present: bool
    var content: Text
    var buffer: Text
    var syncedBytes: nat
    var nameSynced: bool

    /** O_EXCL: a new, empty file. */
    constructor (bufferSize: nat)
      requires bufferSize > 0
      ensures this.bufferSize == bufferSize && present && content == [] && buffer == [] && syncedBytes == 0
              && !nameSynced
    {
      this.bufferSize := bufferSize;
      present, content, buffer, syncedBytes, nameSynced := true, [], [], 0, false;
    }

    ghost function Accepted(): Text
      reads this
    {
      content + buffer
    }

    /** A buffered write: bytes spill to the file as the buffer fills, and none is lost or reordered. */
    method Write(p: Text)
      requires |buffer| <= bufferSize && bufferSize > 0
      modifies this`content, this`buffer
      ensures Accepted() == old(Accepted()) + p && |buffer| <= bufferSize
      ensures old(content) <= content
    {
      var rest := p;
      ghost var total := content + buffer + p;
      while |rest| > bufferSize - |buffer|
        invariant |buffer| <= bufferSize && content + buffer + rest == total && old(content) <= content
        decreases |rest|, |buffer|
      {
        if |buffer| == 0 {
          assert content + [] + rest == content + rest;
          content := content + rest;
          rest := [];
          assert content + buffer + rest == content;
          break;
        }
        var n := bufferSize - |buffer|;
        assert content + buffer + rest == (content + (buffer + rest[..n])) + [] + rest[n..];
        content := content + (buffer + rest[..n]);
        buffer := [];
        rest := rest[n..];
      }
      assert content + buffer + rest == content + (buffer + rest);
      buffer := buffer + rest;
    }

    /**
     Either the rows are on disk under their name with the digest and count returned, or the file
     is gone, or its removal failed too and it stays under a name that was reported to nobody.
     */
    method WriteExportRows(sha: Hash, rows: seq<Option<Text>>, flushes: bool, syncs: bool, closes: bool,
          nameSyncs: bool, removes: bool)
        returns (ok: bool, rowCount: nat, digest: Text)
      requires present && content == [] && buffer == [] && bufferSize > 0
      modifies this
      ensures ok <==> (forall i :: 0 <= i < |rows| ==> rows[i].Some?) && flushes && syncs && closes && nameSyncs
      ensures !ok ==> present == !removes && rowCount == 0 && digest == []
      ensures ok ==> present && nameSynced && syncedBytes == |content| && rowCount == |rows| && digest == sha(content)
      ensures ok ==> content == Concat(Values(rows))
    {
      var hashed: Text := [];
      rowCount, digest, ok := 0, [], false;
      for i := 0 to |rows|
        invariant present && |buffer| <= bufferSize && rowCount == i
        invariant forall k :: 0 <= k < i ==> rows[k].Some?
        invariant Accepted() == hashed == Concat(Values(rows[..i]))
      {
        if rows[i].None? {
          present, rowCount := !removes, 0;
          return;
        }
        assert rows[..i + 1] == rows[..i] + [Some(rows[i].value)];
        ConcatValues(rows[..i], rows[i].value);
        Write(rows[i].value);
        hashed := hashed + rows[i].value;
        rowCount := rowCount + 1;
      }
      if !flushes {
        present, rowCount := !removes, 0;
        return;
      }
      content := content + buffer;
      buffer := [];
      if !syncs {
        present, rowCount := !removes, 0;
        return;
      }
      syncedBytes := |content|;
      if !closes || !nameSyncs {
        present, rowCount := !removes, 0;
        return;
      }
      nameSynced := true;
      ok, digest := true, sha(hashed);
      assert rows[..|rows|] == rows;
    }
  }
}
