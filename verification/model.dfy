/**
 * The state guards of the terminal UI (cmd/readis/model.go): which key presses reach
 * the text input, when "scan more" starts a round, cancel-before-restart of scans,
 * dropping stale fetch results, and the growth of the key-name column.
 */
module Tui {
  import opened Wrappers
  import opened Strings
  import opened ScanSession
  import opened Data

  // ----- isTextInput -----

  /** A key press: the text it produced and whether Alt was held. */
  datatype KeyPress = KeyPress(text: string, alt: bool)

  /** unicode.IsLetter on a one-byte (hence ASCII) character. */
  predicate IsAsciiLetter(c: char)
  {
    ('A' <= c <= 'Z') || ('a' <= c <= 'z')
  }

  /** A text whose UTF-8 encoding is one byte is a single ASCII character. */
  lemma OneByteText(s: string)
    ensures Utf8Len(s) == 0 <==> s == []
    ensures Utf8Len(s) == 1 ==> |s| == 1 && s[0] as int < 0x80
  {
    if s != [] {
      assert Utf8Len(s) >= Utf8Width(s[|s| - 1]) >= 1;
      if Utf8Len(s) == 1 {
        assert |s| <= 1;
      }
    }
  }

  /**
   * isTextInput as written: the length tests count BYTES of the UTF-8 text, so a single
   * non-ASCII character typed without Alt counts as a multi-character batch.
   */
  function IsTextInput(k: KeyPress): (r: bool)
    // an empty text is input
    ensures k.text == [] ==> r
    // Alt with a single ASCII character is input exactly when that character is a letter
    ensures k.alt && |k.text| == 1 && k.text[0] as int < 0x80 ==> (r <==> IsAsciiLetter(k.text[0]))
    // several characters without Alt are never input
    ensures !k.alt && |k.text| > 1 ==> !r
    // a single character without Alt is input only when it is ASCII
    ensures !k.alt && |k.text| == 1 ==> (r <==> k.text[0] as int < 0x80)
    // with Alt, anything but a single ASCII non-letter is input
    ensures k.alt && (|k.text| > 1 || (|k.text| == 1 && k.text[0] as int >= 0x80)) ==> r
  {
    OneByteText(k.text);
    var n := Utf8Len(k.text);
    if n == 0 then true
    else if k.alt && n == 1 && !IsAsciiLetter(k.text[0]) then false
    else if !k.alt && n > 1 then false
    else true
  }

  /** The same guard counting characters, as its comment describes ("multi-character batches"). */
  function IsTextInputRunes(k: KeyPress): (r: bool)
    ensures k.text == [] ==> r
    ensures k.alt && |k.text| == 1 ==> (r <==> k.text[0] as int >= 0x80 || IsAsciiLetter(k.text[0]))
    ensures !k.alt ==> (r <==> |k.text| <= 1)
    ensures k.alt && |k.text| > 1 ==> r
  {
    var n := |k.text|;
    if n == 0 then true
    else if k.alt && n == 1 && k.text[0] as int < 0x80 && !IsAsciiLetter(k.text[0]) then false
    else if !k.alt && n > 1 then false
    else true
  }

  /** On ASCII text the two guards agree. */
  lemma TextInputAgreesOnAscii(k: KeyPress)
    requires forall i :: 0 <= i < |k.text| ==> k.text[i] as int < 0x80
    ensures IsTextInput(k) == IsTextInputRunes(k)
  {
    assert Utf8Len(k.text) == |k.text|;
  }

  /** "é" typed without Alt is one character but two bytes: the guard as written drops it. */
  lemma NonAsciiCharRejected()
    ensures !IsTextInput(KeyPress("é", false))
    ensures IsTextInputRunes(KeyPress("é", false))
  {
  }

  // ----- the scan-more guard -----

  /** "right" or ctrl+t starts another round only on the last page of the list, when a
      scan exists, is not running, and its pattern can have further pages. */
  function CanScanMore(onLastPage: bool, scan: Scan?): (r: bool)
    reads scan
    ensures r <==> onLastPage && scan != null && !scan.scanning && '*' in scan.pattern
  {
    onLastPage && scan != null && !scan.Scanning() && scan.HasMore()
  }

  // ----- the key-name column -----

  /** The column width after widening it for every key: at least one more than each
      name's byte length, and never narrower than before. */
  function Widened(width: int, keys: seq<Key>): (w: int)
    ensures w >= width
    ensures forall i :: 0 <= i < |keys| ==> w >= Utf8Len(keys[i].name) + 1
    ensures w == width || exists i :: 0 <= i < |keys| && w == Utf8Len(keys[i].name) + 1
    decreases |keys|
  {
    if keys == [] then width
    else
      var init := keys[..|keys| - 1];
      var prev := Widened(width, init);
      assert forall i :: 0 <= i < |init| ==> init[i] == keys[i];
      var need := Utf8Len(keys[|keys| - 1].name) + 1;
      if prev >= need then prev else need
  }

  /** Widening twice for the same keys is widening once. */
  lemma {:induction false} WidenedIdempotent(width: int, keys: seq<Key>)
    ensures Widened(Widened(width, keys), keys) == Widened(width, keys)
  {
    var w := Widened(width, keys);
    WidenedBounded(w, keys);
  }

  /** A width already wide enough for every key is kept. */
  lemma {:induction false} WidenedBounded(width: int, keys: seq<Key>)
    requires forall i :: 0 <= i < |keys| ==> width >= Utf8Len(keys[i].name) + 1
    ensures Widened(width, keys) == width
    decreases |keys|
  {
    if keys != [] {
      var init := keys[..|keys| - 1];
      assert forall i :: 0 <= i < |init| ==> init[i] == keys[i];
      WidenedBounded(width, init);
    }
  }

  /** A fetchContentMsg: rendered content and the name of the key it was fetched for. */
  datatype FetchContent = FetchContent(content: string, keyName: string)

  /**
   * The part of the UI model the guards act on. Scan contexts are numbered in the order
   * they are created; cancelScan holds the one whose cancel function the model keeps.
   */
  class Model {
    var scan: Scan?
    var cancelScan: Option<nat>
    var cancelled: set<nat>
    var contexts: nat
    var items: seq<Key>
    var cursor: int
    var viewport: string
    var keyNameWidth: int

    /** Every scan context but the current one has been cancelled. */
    ghost predicate Valid()
      reads this, scan
    {
      && (scan != null ==> scan.Valid())
      && (cancelScan.Some? ==> cancelScan.value < contexts)
      && (forall c :: 0 <= c < contexts && Some(c) != cancelScan ==> c in cancelled)
    }

    constructor ()
      ensures Valid()
      ensures scan == null && cancelScan == None && cancelled == {} && contexts == 0
      ensures items == [] && cursor == 0 && viewport == "" && keyNameWidth == 20
    {
      scan := null;
      cancelScan := None;
      cancelled := {};
      contexts := 0;
      items := [];
      cursor := 0;
      viewport := "";
      keyNameWidth := 20;
    }

    /** The highlighted key, if the cursor is on one. */
    function SelectedItem(): (k: Option<Key>)
      reads this
      ensures k.Some? <==> 0 <= cursor < |items|
      ensures k.Some? ==> k.value == items[cursor]
    {
      if 0 <= cursor < |items| then Some(items[cursor]) else None
    }

    /** startScan: cancel the scan in flight, if any, then start a round under a new context. */
    method StartScan()
      requires Valid() && scan != null
      modifies this, scan
      ensures Valid()
      ensures cancelled == old(cancelled) + (if old(cancelScan).Some? then {old(cancelScan).value} else {})
      ensures contexts == old(contexts) + 1 && cancelScan == Some(old(contexts))
      ensures scan == old(scan) && scan.scanning
      ensures scan.pattern == old(scan.pattern) && scan.pageSize == old(scan.pageSize) && scan.iters == old(scan.iters)
      ensures items == old(items) && cursor == old(cursor) && viewport == old(viewport) && keyNameWidth == old(keyNameWidth)
    {
      if cancelScan.Some? {
        cancelled := cancelled + {cancelScan.value};
      }
      cancelScan := Some(contexts);
      contexts := contexts + 1;
      ScanAsync(scan);
    }

    /** "enter": clear the list, start a new scan of the typed pattern. */
    method PressEnter(pattern: string, pageSize: int)
      requires Valid()
      modifies this
      ensures Valid()
      ensures fresh(scan) && scan.pattern == pattern && scan.pageSize == pageSize
      ensures scan.scanning && scan.iters == map[]
      ensures items == []
      ensures cancelled == old(cancelled) + (if old(cancelScan).Some? then {old(cancelScan).value} else {})
      ensures contexts == old(contexts) + 1 && cancelScan == Some(old(contexts))
      ensures viewport == old(viewport) && keyNameWidth == old(keyNameWidth)
    {
      items := [];
      scan := new Scan(pattern, pageSize);
      StartScan();
    }

    /** "right" or ctrl+t: start the next round when the scan-more guard holds. */
    method PressRight(onLastPage: bool) returns (started: bool)
      requires Valid()
      modifies this, scan
      ensures Valid()
      ensures started <==> old(CanScanMore(onLastPage, scan))
      ensures scan == old(scan)
      ensures started ==> scan.scanning && contexts == old(contexts) + 1 && cancelScan == Some(old(contexts))
      ensures started ==> cancelled == old(cancelled) + (if old(cancelScan).Some? then {old(cancelScan).value} else {})
      ensures started ==> scan.pattern == old(scan.pattern) && scan.pageSize == old(scan.pageSize) && scan.iters == old(scan.iters)
      ensures !started ==> cancelScan == old(cancelScan) && cancelled == old(cancelled) && contexts == old(contexts)
      ensures !started ==> scan == null || (scan.scanning == old(scan.scanning) && scan.iters == old(scan.iters))
      ensures items == old(items) && viewport == old(viewport)
    {
      if CanScanMore(onLastPage, scan) {
        StartScan();
        started := true;
      } else {
        started := false;
      }
    }

    /** A fetchContentMsg: the content is shown only if it is for the highlighted key. */
    method OnFetchContent(msg: FetchContent)
      modifies this
      ensures var sel := old(SelectedItem());
        viewport == (if sel.Some? && sel.value.name == msg.keyName then msg.content else old(viewport))
      ensures scan == old(scan) && cancelScan == old(cancelScan) && cancelled == old(cancelled)
      ensures contexts == old(contexts) && items == old(items) && cursor == old(cursor)
      ensures keyNameWidth == old(keyNameWidth)
    {
      var sel := SelectedItem();
      if sel.Some? && sel.value.name == msg.keyName {
        viewport := msg.content;
      }
    }

    /** resizeViews: the width loop over the visible (all) items, then a new, empty viewport. */
    method ResizeViews()
      modifies this
      ensures keyNameWidth == Widened(old(keyNameWidth), items)
      // the viewport is rebuilt empty, so the next update fetches the content again
      ensures viewport == ""
      ensures scan == old(scan) && cancelScan == old(cancelScan) && cancelled == old(cancelled)
      ensures contexts == old(contexts) && items == old(items) && cursor == old(cursor)
    {
      keyNameWidth := WidenLoop(keyNameWidth, items);
      viewport := "";
    }
  }

  /** The loop body of resizeViews over a list of keys. */
  method WidenLoop(width: int, keys: seq<Key>) returns (w: int)
    ensures w == Widened(width, keys)
  {
    w := width;
    for i := 0 to |keys|
      invariant w == Widened(width, keys[..i])
    {
      WidenedSnoc(width, keys[..i], keys[i]);
      assert keys[..i + 1] == keys[..i] + [keys[i]];
      w := Max(w, Utf8Len(keys[i].name) + 1);
    }
    assert keys[..|keys|] == keys;
  }

  lemma WidenedSnoc(width: int, keys: seq<Key>, k: Key)
    ensures Widened(width, keys + [k]) == Max(Widened(width, keys), Utf8Len(k.name) + 1)
  {
    assert (keys + [k])[..|keys|] == keys;
  }

  function Max(a: int, b: int): int
  {
    if a >= b then a else b
  }
}
