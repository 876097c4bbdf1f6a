/** `EnvManager` of src/env/mod.rs: adds, updates, removes and reads one `KEY=value`
    line of a `.env` file. The file is given as its content, `None` when it does not
    exist; what an operation writes back is returned. */
module Env {
  import opened Wrappers
  import opened Strings

  /** The content read from the file, or the empty text `add_or_update_key` starts
      from when the file does not exist. */
  function ContentOf(existing: Option<string>): string {
    if existing.Some? then existing.value else ""
  }

  /** The line that sets `key` to `value`. */
  function Entry(key: string, value: string): string {
    key + "=" + value
  }

  /** A line that sets `key`: it starts with `KEY=` or with `export KEY=`. */
  predicate SetsKey(line: string, key: string) {
    StartsWith(line, key + "=") || StartsWith(line, "export " + key + "=")
  }

  /** The index of the first line that sets `key`. */
  function FirstSetting(lines: seq<string>, key: string): (r: Option<nat>)
    ensures r.Some? ==> r.value < |lines| && SetsKey(lines[r.value], key)
    ensures r.Some? ==> forall j :: 0 <= j < r.value ==> !SetsKey(lines[j], key)
    ensures r.None? <==> forall j :: 0 <= j < |lines| ==> !SetsKey(lines[j], key)
  {
    if lines == [] then None
    else if SetsKey(lines[0], key) then Some(0)
    else
      var r := FirstSetting(lines[1..], key);
      assert forall j :: 1 <= j < |lines| ==> lines[j] == lines[1..][j - 1];
      if r.Some? then Some(r.value + 1) else None
  }

  /** The lines `add_or_update_key` writes: the first line that sets the key becomes
      `KEY=value`; without one, `KEY=value` is appended, after a blank line when the
      last line is not blank. */
  function UpdatedLines(lines: seq<string>, key: string, value: string): seq<string> {
    match FirstSetting(lines, key)
    case Some(i) => lines[i := Entry(key, value)]
    case None =>
      (if lines != [] && lines[|lines| - 1] != "" then lines + [""] else lines) + [Entry(key, value)]
  }

  /** The content `add_or_update_key` writes: the updated lines joined by `\n`, with no
      final line break. */
  function Updated(content: string, key: string, value: string): string {
    Join(UpdatedLines(Lines(content), key, value), "\n")
  }

  /** `add_or_update_key`: scans the lines for the key, replacing the first that sets it
      and stopping there, or appends the entry; returns the content written. */
  method AddOrUpdateKey(existing: Option<string>, key: string, value: string) returns (written: string)
    ensures written == Updated(ContentOf(existing), key, value)
  {
    var content := if existing.Some? then existing.value else "";
    var lines := Lines(content);
    var keyPrefix := key + "=";
    var found := false;
    var i := 0;
    while i < |lines|
      invariant 0 <= i <= |lines|
      invariant !found && lines == Lines(content)
      invariant forall j :: 0 <= j < i ==> !SetsKey(lines[j], key)
    {
      if StartsWith(lines[i], keyPrefix) || StartsWith(lines[i], "export " + keyPrefix) {
        FirstSettingAt(lines, key, i);
        lines := lines[i := key + "=" + value];
        found := true;
        break;
      }
      i := i + 1;
    }
    if !found {
      if lines != [] && lines[|lines| - 1] != "" {
        lines := lines + [""];
      }
      lines := lines + [key + "=" + value];
    }
    written := Join(lines, "\n");
  }

  /** `set_key`, the alias of `add_or_update_key`. */
  method SetKey(existing: Option<string>, key: string, value: string) returns (written: string)
    ensures written == Updated(ContentOf(existing), key, value)
  {
    written := AddOrUpdateKey(existing, key, value);
  }

  /** A line that sets the key, with none before it, is the first. */
  lemma FirstSettingAt(lines: seq<string>, key: string, i: nat)
    requires i < |lines| && SetsKey(lines[i], key)
    requires forall j :: 0 <= j < i ==> !SetsKey(lines[j], key)
    ensures FirstSetting(lines, key) == Some(i)
  {
  }

  /** The lines that `remove_key` keeps: those that do not set the key, in order. */
  function Kept(lines: seq<string>, key: string): (r: seq<string>)
    ensures |r| <= |lines|
  {
    if lines == [] then []
    else if SetsKey(lines[0], key) then Kept(lines[1..], key)
    else [lines[0]] + Kept(lines[1..], key)
  }

  /** `remove_key`: whether a line was dropped, and the content written, which is
      only when one was; a missing file gives `false` and no write. */
  function RemoveKey(existing: Option<string>, key: string): (r: (bool, Option<string>))
    ensures r.1.Some? <==> r.0
    ensures existing.None? ==> !r.0
  {
    if existing.None? then (false, None)
    else
      var lines := Lines(existing.value);
      var newLines := Kept(lines, key);
      var removed := |newLines| < |lines|;
      (removed, if removed then Some(Join(newLines, "\n")) else None)
  }

  /** The content of the file after `remove_key`. */
  function AfterRemove(existing: Option<string>, key: string): Option<string> {
    match RemoveKey(existing, key).1
    case Some(written) => Some(written)
    case None => existing
  }

  /** `has_key`: the file exists and one of its lines sets the key. */
  predicate HasKey(existing: Option<string>, key: string) {
    existing.Some? && Setting(Lines(existing.value), key)
  }

  /** One of the lines sets the key. */
  predicate Setting(lines: seq<string>, key: string) {
    exists j :: 0 <= j < |lines| && SetsKey(lines[j], key)
  }

  /** The value one line gives: the text after `KEY=`, or after `export KEY=` when the
      line does not start with `KEY=`. */
  function ValueOf(line: string, key: string): (r: Option<string>)
    ensures r.Some? <==> SetsKey(line, key)
  {
    if StartsWith(line, key + "=") then Some(line[|key| + 1..])
    else if StartsWith(line, "export " + key + "=") then Some(line[|key| + 8..])
    else None
  }

  /** The value of the first line that sets the key. */
  function ValueIn(lines: seq<string>, key: string): Option<string> {
    if lines == [] then None
    else if ValueOf(lines[0], key).Some? then ValueOf(lines[0], key)
    else ValueIn(lines[1..], key)
  }

  /** `get_value`: reads the lines in order and returns at the first that sets the key. */
  method GetValue(existing: Option<string>, key: string) returns (r: Option<string>)
    ensures r == (if existing.Some? then ValueIn(Lines(existing.value), key) else None)
  {
    if existing.None? {
      return None;
    }
    var lines := Lines(existing.value);
    var keyPrefix := key + "=";
    var i := 0;
    while i < |lines|
      invariant 0 <= i <= |lines|
      invariant ValueIn(lines, key) == ValueIn(lines[i..], key)
    {
      assert lines[i..][0] == lines[i] && lines[i..][1..] == lines[i + 1..];
      if StartsWith(lines[i], keyPrefix) {
        return Some(lines[i][|keyPrefix|..]);
      }
      var exportPrefix := "export " + key + "=";
      if StartsWith(lines[i], exportPrefix) {
        return Some(lines[i][|exportPrefix|..]);
      }
      i := i + 1;
    }
    assert lines[i..] == [];
    return None;
  }

  // ---------------------------------------------------------------------------
  // Reading a value

  /** The value read is the value of the first line that sets the key. */
  lemma {:induction false} ValueInFirst(lines: seq<string>, key: string)
    ensures FirstSetting(lines, key).None? ==> ValueIn(lines, key).None?
    ensures FirstSetting(lines, key).Some? ==>
      ValueIn(lines, key) == ValueOf(lines[FirstSetting(lines, key).value], key)
  {
    if lines != [] && !SetsKey(lines[0], key) {
      ValueInFirst(lines[1..], key);
    }
  }

  /** `get_value` finds a value exactly when `has_key` holds. */
  lemma ValueIffHasKey(existing: Option<string>, key: string)
    ensures (existing.Some? && ValueIn(Lines(existing.value), key).Some?) <==> HasKey(existing, key)
  {
    if existing.Some? {
      var lines := Lines(existing.value);
      ValueInFirst(lines, key);
      if Setting(lines, key) {
        var j :| 0 <= j < |lines| && SetsKey(lines[j], key);
        assert FirstSetting(lines, key).Some?;
      }
    }
  }

  /** The value of a written entry is the value written. */
  lemma EntryValue(key: string, value: string)
    ensures ValueOf(Entry(key, value), key) == Some(value)
  {
    assert StartsWith(Entry(key, value), key + "=");
    assert Entry(key, value)[|key| + 1..] == value;
  }

  // ---------------------------------------------------------------------------
  // Adding then reading

  /** A line without line breaks whose last character is not a carriage return: it
      reads back unchanged from any position. */
  predicate CleanLine(line: string) {
    NoNewline(line) && (line == [] || line[|line| - 1] != '\r')
  }

  /** The entry of a clean key and value is a clean line that sets the key. */
  lemma EntryClean(key: string, value: string)
    requires NoNewline(key) && CleanLine(value)
    ensures CleanLine(Entry(key, value)) && SetsKey(Entry(key, value), key) && Entry(key, value) != ""
  {
    var e := Entry(key, value);
    assert forall i :: 0 <= i < |e| ==> e[i] == if i < |key| then key[i] else if i == |key| then '=' else value[i - |key| - 1];
    assert e[|e| - 1] == if value == [] then '=' else value[|value| - 1];
    assert e[..|key| + 1] == key + "=";
  }

  /** A line that does not set the key does not once its carriage return is gone. */
  lemma StripCRKeepsUnset(line: string, key: string)
    requires !SetsKey(line, key)
    ensures !SetsKey(StripCR(line), key)
  {
    if StartsWith(StripCR(line), key + "=") {
      StripCRStartsWith(line, key + "=");
    }
    if StartsWith(StripCR(line), "export " + key + "=") {
      StripCRStartsWith(line, "export " + key + "=");
    }
  }

  /** The updated lines: the entry at index `i`, and no line before it sets the key. */
  lemma UpdatedEntryAt(lines: seq<string>, key: string, value: string) returns (i: nat)
    requires NoNewline(key) && CleanLine(value)
    ensures var ls := UpdatedLines(lines, key, value);
      i < |ls| && ls[i] == Entry(key, value) && (forall j :: 0 <= j < i ==> !SetsKey(ls[j], key))
  {
    EntryClean(key, value);
    var ls := UpdatedLines(lines, key, value);
    match FirstSetting(lines, key)
    case Some(k) =>
      i := k;
    case None =>
      i := |ls| - 1;
      assert forall j :: 0 <= j < |lines| ==> ls[j] == lines[j];
      forall j | 0 <= j < i ensures !SetsKey(ls[j], key) {
        if j >= |lines| {
          assert ls[j] == "";
        }
      }
  }

  /** The updated lines hold no line break when the lines, the key and the value hold
      none. */
  lemma UpdatedNoNewline(lines: seq<string>, key: string, value: string)
    requires forall k :: 0 <= k < |lines| ==> NoNewline(lines[k])
    requires NoNewline(key) && CleanLine(value)
    ensures var ls := UpdatedLines(lines, key, value);
      forall k :: 0 <= k < |ls| ==> NoNewline(ls[k])
  {
    EntryClean(key, value);
  }

  /** Reading back lines of which the one at `i` is clean and sets the key, and none
      before it does, gives that line's value. */
  lemma ReadBackValue(ls: seq<string>, r: seq<string>, key: string, i: nat)
    requires ReadBack(ls, r)
    requires i < |ls| && CleanLine(ls[i]) && ls[i] != ""
    requires forall j :: 0 <= j < i ==> !SetsKey(ls[j], key)
    ensures i < |r| && r[i] == ls[i]
    ensures forall j :: 0 <= j < i ==> !SetsKey(r[j], key)
  {
    forall j | 0 <= j < i ensures !SetsKey(r[j], key) {
      StripCRKeepsUnset(ls[j], key);
    }
  }

  /** After `add_or_update_key`, `has_key` holds and `get_value` reads the value
      written, when neither the key nor the value holds a line break and the value
      does not end in a carriage return. */
  lemma AddThenRead(existing: Option<string>, key: string, value: string)
    requires NoNewline(key) && CleanLine(value)
    ensures HasKey(Some(Updated(ContentOf(existing), key, value)), key)
    ensures ValueIn(Lines(Updated(ContentOf(existing), key, value)), key) == Some(value)
  {
    var lines := Lines(ContentOf(existing));
    var ls := UpdatedLines(lines, key, value);
    var r := Lines(Join(ls, "\n"));
    LinesHaveNoNewline(ContentOf(existing));
    UpdatedNoNewline(lines, key, value);
    LinesOfJoin(ls);
    var i := UpdatedEntryAt(lines, key, value);
    EntryClean(key, value);
    ReadBackValue(ls, r, key, i);
    FirstSettingAt(r, key, i);
    ValueInFirst(r, key);
    EntryValue(key, value);
  }

  // ---------------------------------------------------------------------------
  // Adding twice

  /** Lines read back exactly when every line but the last is clean and the last is
      not empty. */
  lemma ReadBackExact(ls: seq<string>, r: seq<string>)
    requires ReadBack(ls, r)
    requires forall k :: 0 <= k < |ls| ==> CleanLine(ls[k])
    requires ls == [] || ls[|ls| - 1] != ""
    ensures r == ls
  {
  }

  /** Updating lines already updated changes nothing. */
  lemma UpdatedLinesTwice(lines: seq<string>, key: string, value: string)
    requires NoNewline(key) && CleanLine(value)
    ensures UpdatedLines(UpdatedLines(lines, key, value), key, value) == UpdatedLines(lines, key, value)
  {
    var ls := UpdatedLines(lines, key, value);
    var i := UpdatedEntryAt(lines, key, value);
    EntryClean(key, value);
    FirstSettingAt(ls, key, i);
  }

  /** The updated lines are clean and the last is not empty, when the lines are clean
      and the last is not empty. */
  lemma UpdatedClean(lines: seq<string>, key: string, value: string)
    requires forall k :: 0 <= k < |lines| ==> CleanLine(lines[k])
    requires lines == [] || lines[|lines| - 1] != ""
    requires NoNewline(key) && CleanLine(value)
    ensures var ls := UpdatedLines(lines, key, value);
      (forall k :: 0 <= k < |ls| ==> CleanLine(ls[k])) && ls != [] && ls[|ls| - 1] != ""
  {
    EntryClean(key, value);
    assert CleanLine("");
  }

  /** `add_or_update_key` run twice with the same key and value writes what it wrote
      the first time, when the lines of the file are clean and its last line is not
      empty. */
  lemma AddTwice(content: string, key: string, value: string)
    requires forall k :: 0 <= k < |Lines(content)| ==> CleanLine(Lines(content)[k])
    requires Lines(content) == [] || Lines(content)[|Lines(content)| - 1] != ""
    requires NoNewline(key) && CleanLine(value)
    ensures Updated(Updated(content, key, value), key, value) == Updated(content, key, value)
  {
    RereadUpdated(content, key, value);
    UpdatedLinesTwice(Lines(content), key, value);
  }

  /** Under the same conditions the written content reads back as the updated lines. */
  lemma RereadUpdated(content: string, key: string, value: string)
    requires forall k :: 0 <= k < |Lines(content)| ==> CleanLine(Lines(content)[k])
    requires Lines(content) == [] || Lines(content)[|Lines(content)| - 1] != ""
    requires NoNewline(key) && CleanLine(value)
    ensures Lines(Updated(content, key, value)) == UpdatedLines(Lines(content), key, value)
  {
    var ls := UpdatedLines(Lines(content), key, value);
    UpdatedClean(Lines(content), key, value);
    LinesOfJoin(ls);
    ReadBackExact(ls, Lines(Join(ls, "\n")));
  }

  /** Without those conditions it is not idempotent: a file ending in a blank line
      loses it on the first write and its line break on the second. */
  lemma AddTwiceDiffers(content: string)
    requires content == "K=v\n\n"
    ensures Updated(content, "K", "v") == "K=v\n"
    ensures Updated(Updated(content, "K", "v"), "K", "v") == "K=v"
  {
    BlankEndedLines(content);
    EntryKept(["K=v", ""]);
    OneSetLine("K=v\n");
  }

  lemma BlankEndedLines(content: string)
    requires content == "K=v\n\n"
    ensures Lines(content) == ["K=v", ""]
  {
    assert content == "K=v" + "\n" + "\n";
    assert "\n" == "" + "\n" + "";
    LinesAfterBreak("K=v", "\n");
    LinesAfterBreak("", "");
  }

  /** The entry already in place is written again, and the blank line after it is
      joined as a final line break. */
  lemma EntryKept(ls: seq<string>)
    requires ls == ["K=v", ""]
    ensures UpdatedLines(ls, "K", "v") == ls && Join(ls, "\n") == "K=v\n"
  {
    assert StartsWith(ls[0], "K" + "=");
    FirstSettingAt(ls, "K", 0);
    assert Entry("K", "v") == "K=v";
    assert ls[0 := Entry("K", "v")] == ls;
    assert ls[1..] == [""];
    assert Join(ls, "\n") == "K=v" + "\n" + "";
  }

  lemma OneSetLine(content: string)
    requires content == "K=v\n"
    ensures Updated(content, "K", "v") == "K=v"
  {
    assert content == "K=v" + "\n" + "";
    LinesAfterBreak("K=v", "");
    assert StartsWith("K=v", "K" + "=");
    FirstSettingAt(["K=v"], "K", 0);
  }

  // ---------------------------------------------------------------------------
  // Removing

  /** No kept line sets the key, and every line that does not set it is kept. */
  lemma {:induction false} KeptExactly(lines: seq<string>, key: string)
    ensures forall l :: l in Kept(lines, key) <==> l in lines && !SetsKey(l, key)
  {
    if lines != [] {
      KeptExactly(lines[1..], key);
      assert lines == [lines[0]] + lines[1..];
    }
  }

  /** Lines are dropped exactly when one sets the key; otherwise all are kept. */
  lemma {:induction false} KeptShorter(lines: seq<string>, key: string)
    ensures |Kept(lines, key)| < |lines| <==> Setting(lines, key)
    ensures !Setting(lines, key) ==> Kept(lines, key) == lines
  {
    if lines != [] {
      KeptShorter(lines[1..], key);
      assert forall j :: 1 <= j < |lines| ==> lines[j] == lines[1..][j - 1];
      if Setting(lines[1..], key) {
        var j :| 0 <= j < |lines[1..]| && SetsKey(lines[1..][j], key);
        assert SetsKey(lines[j + 1], key);
      }
      if Setting(lines, key) && !SetsKey(lines[0], key) {
        var j :| 0 <= j < |lines| && SetsKey(lines[j], key);
        assert SetsKey(lines[1..][j - 1], key);
      }
    }
  }

  /** `remove_key` reports a removal exactly when `has_key` holds. */
  lemma RemovedIffHasKey(existing: Option<string>, key: string)
    ensures RemoveKey(existing, key).0 <==> HasKey(existing, key)
  {
    if existing.Some? {
      KeptShorter(Lines(existing.value), key);
    }
  }

  /** After `remove_key`, `has_key` does not hold. */
  lemma RemoveThenAbsent(existing: Option<string>, key: string)
    ensures !HasKey(AfterRemove(existing, key), key)
  {
    if existing.Some? {
      var lines := Lines(existing.value);
      KeptShorter(lines, key);
      if Setting(lines, key) {
        var kept := Kept(lines, key);
        LinesHaveNoNewline(existing.value);
        KeptExactly(lines, key);
        KeptNoNewline(lines, kept);
        LinesOfJoin(kept);
        NoneSetAfterReadBack(kept, Lines(Join(kept, "\n")), key);
      }
    }
  }

  lemma KeptNoNewline(lines: seq<string>, kept: seq<string>)
    requires forall k :: 0 <= k < |lines| ==> NoNewline(lines[k])
    requires forall l :: l in kept ==> l in lines
    ensures forall k :: 0 <= k < |kept| ==> NoNewline(kept[k])
  {
    forall k | 0 <= k < |kept| ensures NoNewline(kept[k]) {
      assert kept[k] in kept;
      var j :| 0 <= j < |lines| && lines[j] == kept[k];
    }
  }

  lemma NoneSetAfterReadBack(ls: seq<string>, r: seq<string>, key: string)
    requires ReadBack(ls, r)
    requires forall l :: l in ls ==> !SetsKey(l, key)
    ensures !Setting(r, key)
  {
    forall j | 0 <= j < |r| ensures !SetsKey(r[j], key) {
      assert ls[j] in ls;
      StripCRKeepsUnset(ls[j], key);
    }
  }
}
