/**
 * Window selection in the mac-at screenshot tool. `gen_ids_from_info`
 * flattens the window list of the window server into tuples,
 * `gen_window_ids` keeps the windows of one application, and `find_window`
 * picks the window a request names.
 *
 * The window list (`CGWindowListCopyWindowInfo`) is a parameter, and so is
 * the transliteration `unidecode`. Python exceptions are `Failure`s.
 */
module ScreenshotAppWindow {
  import opened Wrappers
  import opened Strings

  /** `kCGWindowNumber`; the source substitutes "" when the key is absent. */
  datatype WindowNumber = Number(n: int) | NoNumber

  /** One window dictionary; an absent key is None. The bounds are a dictionary themselves. */
  datatype WindowInfo = WindowInfo(
    owner: Option<string>,              // kCGWindowOwnerName
    number: Option<int>,                // kCGWindowNumber
    name: Option<string>,               // kCGWindowName
    bounds: Option<map<string, int>>)   // kCGWindowBounds

  datatype Coords = Coords(x: int, y: int, width: int, height: int)

  /** A tuple of `gen_ids_from_info`: number, owner, name, bounds. */
  datatype WindowEntry = WindowEntry(number: WindowNumber, owner: string, name: string, coords: Coords)

  /** A tuple of `gen_window_ids` and of `find_window`: number, name, bounds. */
  datatype WindowRecord = WindowRecord(number: WindowNumber, name: string, coords: Coords)

  datatype WindowError =
    | BoundsMissing                  // indexing the "" default
    | BoundsKeyMissing(key: string)  // KeyError on the bounds dictionary
    | NoWindows                      // IndexError on `windows[0]`
    | WindowNotFound(windowName: string)

  type Unidecode = string -> string

  const StatusBarWindowIdentifier := "Item-0"

  // -----------------------------------------------------------------------
  // gen_ids_from_info
  // -----------------------------------------------------------------------

  predicate HasBounds(info: WindowInfo) {
    info.bounds.Some? && "X" in info.bounds.value && "Y" in info.bounds.value
    && "Width" in info.bounds.value && "Height" in info.bounds.value
  }

  /** The tuple for one window dictionary, or the error reading its bounds raises. */
  function EntryOf(info: WindowInfo): (r: Result<WindowEntry, WindowError>)
    ensures r.Success? <==> HasBounds(info)
    ensures r.Success? ==> r.value.owner == info.owner.GetOr("") && r.value.name == info.name.GetOr("")
    ensures r.Success? ==> r.value.number == (if info.number.Some? then Number(info.number.value) else NoNumber)
  {
    if info.bounds.None? then Failure(BoundsMissing)
    else
      var b := info.bounds.value;
      if "X" !in b then Failure(BoundsKeyMissing("X"))
      else if "Y" !in b then Failure(BoundsKeyMissing("Y"))
      else if "Width" !in b then Failure(BoundsKeyMissing("Width"))
      else if "Height" !in b then Failure(BoundsKeyMissing("Height"))
      else
        var num := if info.number.Some? then Number(info.number.value) else NoNumber;
        Success(WindowEntry(num, info.owner.GetOr(""), info.name.GetOr(""), Coords(b["X"], b["Y"], b["Width"], b["Height"])))
  }

  /** All tuples in order; the first window whose bounds cannot be read stops the whole list. */
  function IdsFromInfo(infos: seq<WindowInfo>): Result<seq<WindowEntry>, WindowError> {
    if infos == [] then Success([])
    else
      match IdsFromInfo(infos[..|infos| - 1])
      case Failure(e) => Failure(e)
      case Success(es) =>
        match EntryOf(infos[|infos| - 1])
        case Failure(e) => Failure(e)
        case Success(en) => Success(es + [en])
  }

  /** The list is built exactly when every window has readable bounds. */
  lemma {:induction false} IdsFromInfoSucceeds(infos: seq<WindowInfo>)
    ensures IdsFromInfo(infos).Success? <==> forall i :: 0 <= i < |infos| ==> HasBounds(infos[i])
  {
    if infos != [] {
      var init := infos[..|infos| - 1];
      IdsFromInfoSucceeds(init);
      assert forall j :: 0 <= j < |init| ==> infos[j] == init[j];
    }
  }

  /** On success there is one tuple per window, in order. */
  lemma {:induction false} IdsFromInfoValue(infos: seq<WindowInfo>)
    requires IdsFromInfo(infos).Success?
    ensures |IdsFromInfo(infos).value| == |infos|
    ensures forall i :: 0 <= i < |infos| ==>
              EntryOf(infos[i]).Success? && IdsFromInfo(infos).value[i] == EntryOf(infos[i]).value
  {
    if infos != [] {
      var init := infos[..|infos| - 1];
      IdsFromInfoValue(init);
      assert forall j :: 0 <= j < |init| ==> infos[j] == init[j];
    }
  }

  /** On failure the error is the one of the first window whose bounds cannot be read. */
  lemma {:induction false} IdsFromInfoError(infos: seq<WindowInfo>)
    requires IdsFromInfo(infos).Failure?
    ensures exists i :: 0 <= i < |infos| && !HasBounds(infos[i])
                        && (forall j :: 0 <= j < i ==> HasBounds(infos[j]))
                        && IdsFromInfo(infos).error == EntryOf(infos[i]).error
  {
    var init := infos[..|infos| - 1];
    assert forall j :: 0 <= j < |init| ==> infos[j] == init[j];
    if IdsFromInfo(init).Failure? {
      IdsFromInfoError(init);
      var i :| 0 <= i < |init| && !HasBounds(init[i]) && (forall j :: 0 <= j < i ==> HasBounds(init[j]))
               && IdsFromInfo(init).error == EntryOf(init[i]).error;
      assert infos[i] == init[i];
    } else {
      IdsFromInfoSucceeds(init);
      assert !HasBounds(infos[|infos| - 1]);
    }
  }

  /** `gen_ids_from_info`: the loop appending one tuple per window. */
  method GenIdsFromInfo(windows: seq<WindowInfo>) returns (r: Result<seq<WindowEntry>, WindowError>)
    ensures r == IdsFromInfo(windows)
  {
    var result := [];
    var i := 0;
    while i < |windows|
      invariant 0 <= i <= |windows|
      invariant IdsFromInfo(windows[..i]) == Success(result)
    {
      assert windows[..i + 1][..i] == windows[..i];
      var entry := EntryOf(windows[i]);
      if entry.Failure? {
        assert IdsFromInfo(windows[..i + 1]).Failure?;
        FailureExtends(windows, i + 1);
        return Failure(entry.error);
      }
      result := result + [entry.value];
      i := i + 1;
    }
    assert windows[..i] == windows;
    r := Success(result);
  }

  /** Once a prefix fails, every longer prefix fails with the same error. */
  lemma {:induction false} FailureExtends(infos: seq<WindowInfo>, k: nat)
    requires k <= |infos| && IdsFromInfo(infos[..k]).Failure?
    ensures IdsFromInfo(infos) == IdsFromInfo(infos[..k])
    decreases |infos| - k
  {
    if k < |infos| {
      assert infos[..k + 1][..k] == infos[..k];
      FailureExtends(infos, k + 1);
    } else {
      assert infos[..k] == infos;
    }
  }

  // -----------------------------------------------------------------------
  // gen_window_ids
  // -----------------------------------------------------------------------

  /** The windows `gen_window_ids` keeps: owned by `parent`, ignoring case, and not the status bar. */
  predicate Keep(parent: string, e: WindowEntry) {
    Lower(parent) == Lower(e.owner) && e.name != StatusBarWindowIdentifier
  }

  /** The returned tuple: the name with every space replaced by an underscore. */
  function RecordOf(e: WindowEntry): WindowRecord {
    WindowRecord(e.number, ReplaceChar(e.name, ' ', '_'), e.coords)
  }

  /** The kept windows, in their order. */
  function Selected(parent: string, es: seq<WindowEntry>): seq<WindowRecord> {
    if es == [] then []
    else
      var rest := Selected(parent, es[..|es| - 1]);
      if Keep(parent, es[|es| - 1]) then rest + [RecordOf(es[|es| - 1])] else rest
  }

  /** The whole of `gen_window_ids`. */
  function WindowIds(parent: string, infos: seq<WindowInfo>): Result<seq<WindowRecord>, WindowError> {
    match IdsFromInfo(infos)
    case Failure(e) => Failure(e)
    case Success(es) => Success(Selected(parent, es))
  }

  /** Selection is a filter: it commutes with concatenation, so the order of the windows is kept. */
  lemma {:induction false} SelectedAppend(parent: string, a: seq<WindowEntry>, b: seq<WindowEntry>)
    ensures Selected(parent, a + b) == Selected(parent, a) + Selected(parent, b)
    decreases |b|
  {
    if b == [] {
      assert a + b == a;
    } else {
      var b' := b[..|b| - 1];
      assert (a + b)[..|a + b| - 1] == a + b';
      SelectedAppend(parent, a, b');
    }
  }

  /** Every returned tuple comes from a kept window, and every kept window is returned. */
  lemma {:induction false} SelectedExactly(parent: string, es: seq<WindowEntry>)
    ensures |Selected(parent, es)| <= |es|
    ensures forall k :: 0 <= k < |Selected(parent, es)| ==>
              exists i :: 0 <= i < |es| && Keep(parent, es[i]) && Selected(parent, es)[k] == RecordOf(es[i])
    ensures forall i :: 0 <= i < |es| && Keep(parent, es[i]) ==> RecordOf(es[i]) in Selected(parent, es)
  {
    if es != [] {
      var init := es[..|es| - 1];
      SelectedExactly(parent, init);
      assert forall i :: 0 <= i < |init| ==> es[i] == init[i];
      var s := Selected(parent, es);
      forall k | 0 <= k < |s|
        ensures exists i :: 0 <= i < |es| && Keep(parent, es[i]) && s[k] == RecordOf(es[i])
      {
        if k < |Selected(parent, init)| {
          var i :| 0 <= i < |init| && Keep(parent, init[i]) && Selected(parent, init)[k] == RecordOf(init[i]);
          assert es[i] == init[i];
        } else {
          assert s[k] == RecordOf(es[|es| - 1]);
        }
      }
    }
  }

  /** Replacing spaces cannot produce "Item-0" from any other name. */
  lemma StatusBarOnlyFromItself(name: string)
    requires ReplaceChar(name, ' ', '_') == StatusBarWindowIdentifier
    ensures name == StatusBarWindowIdentifier
  {
    var r := ReplaceChar(name, ' ', '_');
    assert |name| == |r|;
    forall i | 0 <= i < |name| ensures name[i] == r[i] {
      assert r[i] != '_';
    }
  }

  /** No returned name contains a space or is the status bar's. */
  lemma {:induction false} SelectedNames(parent: string, es: seq<WindowEntry>)
    ensures forall k :: 0 <= k < |Selected(parent, es)| ==>
              ' ' !in Selected(parent, es)[k].name && Selected(parent, es)[k].name != StatusBarWindowIdentifier
  {
    SelectedExactly(parent, es);
    forall k | 0 <= k < |Selected(parent, es)|
      ensures ' ' !in Selected(parent, es)[k].name && Selected(parent, es)[k].name != StatusBarWindowIdentifier
    {
      var i :| 0 <= i < |es| && Keep(parent, es[i]) && Selected(parent, es)[k] == RecordOf(es[i]);
      var n := RecordOf(es[i]).name;
      assert forall j :: 0 <= j < |n| ==> n[j] != ' ';
      if n == StatusBarWindowIdentifier {
        StatusBarOnlyFromItself(es[i].name);
      }
    }
  }

  /** `gen_window_ids`: lower-case the application name once, then filter the tuples. */
  method GenWindowIds(parent: string, windows: seq<WindowInfo>) returns (r: Result<seq<WindowRecord>, WindowError>)
    ensures r == WindowIds(parent, windows)
  {
    var info := GenIdsFromInfo(windows);
    if info.Failure? {
      return Failure(info.error);
    }
    var entries := info.value;
    var lowered := Lower(parent);
    var result := [];
    var i := 0;
    while i < |entries|
      invariant 0 <= i <= |entries|
      invariant result == Selected(parent, entries[..i])
    {
      assert entries[..i + 1][..i] == entries[..i];
      var e := entries[i];
      if lowered == Lower(e.owner) {
        if e.name != StatusBarWindowIdentifier {
          result := result + [WindowRecord(e.number, ReplaceChar(e.name, ' ', '_'), e.coords)];
        }
      }
      i := i + 1;
    }
    assert entries[..i] == entries;
    r := Success(result);
  }

  // -----------------------------------------------------------------------
  // find_window
  // -----------------------------------------------------------------------

  /** The first pass: the decoded names agree, the request is the application's name, or it is empty. */
  predicate ExactMatch(appName: string, windowName: string, decode: Unidecode, w: WindowRecord) {
    decode(w.name) == decode(windowName) || decode(windowName) == appName || windowName == ""
  }

  /** The second pass: the decoded request starts with the decoded window name. */
  predicate PrefixMatch(windowName: string, decode: Unidecode, w: WindowRecord) {
    decode(w.name) <= decode(windowName)
  }

  /** The returned tuple carries the decoded name. */
  function Decoded(w: WindowRecord, decode: Unidecode): WindowRecord {
    w.(name := decode(w.name))
  }

  /** The index of the first window the first pass accepts, or |ws|. */
  function FirstExact(appName: string, windowName: string, decode: Unidecode, ws: seq<WindowRecord>): (k: nat)
    ensures k <= |ws|
    ensures k < |ws| ==> ExactMatch(appName, windowName, decode, ws[k])
    ensures forall j :: 0 <= j < k ==> !ExactMatch(appName, windowName, decode, ws[j])
  {
    if ws == [] then 0
    else if ExactMatch(appName, windowName, decode, ws[0]) then 0
    else 1 + FirstExact(appName, windowName, decode, ws[1..])
  }

  /** The index of the first window the second pass accepts, or |ws|. */
  function FirstPrefix(windowName: string, decode: Unidecode, ws: seq<WindowRecord>): (k: nat)
    ensures k <= |ws|
    ensures k < |ws| ==> PrefixMatch(windowName, decode, ws[k])
    ensures forall j :: 0 <= j < k ==> !PrefixMatch(windowName, decode, ws[j])
  {
    if ws == [] then 0
    else if PrefixMatch(windowName, decode, ws[0]) then 0
    else 1 + FirstPrefix(windowName, decode, ws[1..])
  }

  /** What `find_window` returns for the windows of the application. */
  function FindIn(appName: string, windowName: Option<string>, ws: seq<WindowRecord>, decode: Unidecode)
    : Result<WindowRecord, WindowError>
  {
    if windowName.None? then
      if ws == [] then Failure(NoWindows) else Success(Decoded(ws[0], decode))
    else
      var k := FirstExact(appName, windowName.value, decode, ws);
      if k < |ws| then Success(Decoded(ws[k], decode))
      else
        var k' := FirstPrefix(windowName.value, decode, ws);
        if k' < |ws| then Success(Decoded(ws[k'], decode))
        else Failure(WindowNotFound(windowName.value))
  }

  /** The whole of `find_window`, window list included. */
  function FindWindowSpec(appName: string, windowName: Option<string>, infos: seq<WindowInfo>, decode: Unidecode)
    : Result<WindowRecord, WindowError>
  {
    match WindowIds(appName, infos)
    case Failure(e) => Failure(e)
    case Success(ws) => FindIn(appName, windowName, ws, decode)
  }

  /**
   * A named request finds a window exactly when one passes either test;
   * the window found is the first that passes the first test, else the
   * first that passes the second, and it is returned with its decoded name.
   */
  lemma FindInSpec(appName: string, windowName: string, ws: seq<WindowRecord>, decode: Unidecode)
    ensures FindIn(appName, Some(windowName), ws, decode).Failure? <==>
            forall i :: 0 <= i < |ws| ==> !ExactMatch(appName, windowName, decode, ws[i])
                                          && !PrefixMatch(windowName, decode, ws[i])
    ensures FindIn(appName, Some(windowName), ws, decode).Failure? ==>
            FindIn(appName, Some(windowName), ws, decode).error == WindowNotFound(windowName)
    ensures forall i :: 0 <= i < |ws| && ExactMatch(appName, windowName, decode, ws[i])
                        && (forall j :: 0 <= j < i ==> !ExactMatch(appName, windowName, decode, ws[j])) ==>
              FindIn(appName, Some(windowName), ws, decode) == Success(Decoded(ws[i], decode))
    ensures forall i :: 0 <= i < |ws| && PrefixMatch(windowName, decode, ws[i])
                        && (forall j :: 0 <= j < |ws| ==> !ExactMatch(appName, windowName, decode, ws[j]))
                        && (forall j :: 0 <= j < i ==> !PrefixMatch(windowName, decode, ws[j])) ==>
              FindIn(appName, Some(windowName), ws, decode) == Success(Decoded(ws[i], decode))
  {
    var k := FirstExact(appName, windowName, decode, ws);
    var k' := FirstPrefix(windowName, decode, ws);
    forall i | 0 <= i < |ws| && ExactMatch(appName, windowName, decode, ws[i])
               && (forall j :: 0 <= j < i ==> !ExactMatch(appName, windowName, decode, ws[j]))
      ensures k == i
    {
    }
    forall i | 0 <= i < |ws| && PrefixMatch(windowName, decode, ws[i])
               && (forall j :: 0 <= j < i ==> !PrefixMatch(windowName, decode, ws[j]))
      ensures k' == i
    {
    }
  }

  /** Without a window name the first window is returned, and an empty list is an error. */
  lemma FindUnnamed(appName: string, ws: seq<WindowRecord>, decode: Unidecode)
    ensures FindIn(appName, None, ws, decode).Success? <==> ws != []
    ensures ws != [] ==> FindIn(appName, None, ws, decode).value == Decoded(ws[0], decode)
    ensures ws == [] ==> FindIn(appName, None, ws, decode) == Failure(NoWindows)
  {
  }

  /** An empty request, or one that decodes to the application's name, returns the first window. */
  lemma FindFirstForAppOrEmpty(appName: string, windowName: string, ws: seq<WindowRecord>, decode: Unidecode)
    requires windowName == "" || decode(windowName) == appName
    ensures FindIn(appName, Some(windowName), ws, decode).Success? <==> ws != []
    ensures ws != [] ==> FindIn(appName, Some(windowName), ws, decode).value == Decoded(ws[0], decode)
  {
    if ws == [] {
      FindInSpec(appName, windowName, ws, decode);
    }
  }

  /** A window whose name decodes to "" passes the second test whatever the request. */
  lemma EmptyNameAlwaysFound(appName: string, windowName: string, ws: seq<WindowRecord>, decode: Unidecode, i: nat)
    requires i < |ws| && decode(ws[i].name) == ""
    ensures FindIn(appName, Some(windowName), ws, decode).Success?
  {
    FindInSpec(appName, windowName, ws, decode);
    assert PrefixMatch(windowName, decode, ws[i]);
  }

  /** Every window found is one of the application's windows, with its name decoded. */
  lemma FindReturnsListed(appName: string, windowName: Option<string>, ws: seq<WindowRecord>, decode: Unidecode)
    ensures FindIn(appName, windowName, ws, decode).Success? ==>
              exists i :: 0 <= i < |ws| && FindIn(appName, windowName, ws, decode).value == Decoded(ws[i], decode)
  {
    var r := FindIn(appName, windowName, ws, decode);
    if r.Success? {
      if windowName.None? {
        assert r.value == Decoded(ws[0], decode);
      } else {
        var k := FirstExact(appName, windowName.value, decode, ws);
        if k < |ws| {
          assert r.value == Decoded(ws[k], decode);
        } else {
          var k' := FirstPrefix(windowName.value, decode, ws);
          assert r.value == Decoded(ws[k'], decode);
        }
      }
    }
  }

  /**
   * `find_window`: the two early-return scans. The error list of
   * `gen_window_ids` propagates unchanged.
   */
  method FindWindow(appName: string, windowName: Option<string>, infos: seq<WindowInfo>, decode: Unidecode)
    returns (r: Result<WindowRecord, WindowError>)
    ensures r == FindWindowSpec(appName, windowName, infos, decode)
  {
    var generated := GenWindowIds(appName, infos);
    if generated.Failure? {
      return Failure(generated.error);
    }
    var windows := generated.value;
    if windowName.None? {
      if |windows| == 0 {
        return Failure(NoWindows);
      }
      return Success(WindowRecord(windows[0].number, decode(windows[0].name), windows[0].coords));
    }
    var decodedWindowName := decode(windowName.value);
    var i := 0;
    while i < |windows|
      invariant 0 <= i <= |windows|
      invariant forall j :: 0 <= j < i ==> !ExactMatch(appName, windowName.value, decode, windows[j])
    {
      var decodedName := decode(windows[i].name);
      if decodedName == decodedWindowName || decodedWindowName == appName || windowName.value == "" {
        FindInSpec(appName, windowName.value, windows, decode);
        return Success(WindowRecord(windows[i].number, decodedName, windows[i].coords));
      }
      i := i + 1;
    }
    i := 0;
    while i < |windows|
      invariant 0 <= i <= |windows|
      invariant forall j :: 0 <= j < i ==> !PrefixMatch(windowName.value, decode, windows[j])
    {
      var decodedName := decode(windows[i].name);
      if decodedName <= decodedWindowName {
        FindInSpec(appName, windowName.value, windows, decode);
        return Success(WindowRecord(windows[i].number, decodedName, windows[i].coords));
      }
      i := i + 1;
    }
    FindInSpec(appName, windowName.value, windows, decode);
    r := Failure(WindowNotFound(windowName.value));
  }

  /** Every window `find_window` returns comes from a window dictionary of the application that is not the status bar. */
  lemma FindWindowOwned(appName: string, windowName: Option<string>, infos: seq<WindowInfo>, decode: Unidecode)
    ensures FindWindowSpec(appName, windowName, infos, decode).Success? ==>
              exists i :: 0 <= i < |infos| && EntryOf(infos[i]).Success? && Keep(appName, EntryOf(infos[i]).value)
                          && FindWindowSpec(appName, windowName, infos, decode).value
                             == Decoded(RecordOf(EntryOf(infos[i]).value), decode)
  {
    var r := FindWindowSpec(appName, windowName, infos, decode);
    if r.Success? {
      var es := IdsFromInfo(infos).value;
      var ws := Selected(appName, es);
      FindReturnsListed(appName, windowName, ws, decode);
      var k :| 0 <= k < |ws| && r.value == Decoded(ws[k], decode);
      SelectedFromInfos(appName, infos, k);
    }
  }

  /** A selected tuple traced back to its window dictionary. */
  lemma SelectedFromInfos(parent: string, infos: seq<WindowInfo>, k: nat)
    requires IdsFromInfo(infos).Success? && k < |Selected(parent, IdsFromInfo(infos).value)|
    ensures exists i :: 0 <= i < |infos| && EntryOf(infos[i]).Success? && Keep(parent, EntryOf(infos[i]).value)
                        && Selected(parent, IdsFromInfo(infos).value)[k] == RecordOf(EntryOf(infos[i]).value)
  {
    var es := IdsFromInfo(infos).value;
    IdsFromInfoValue(infos);
    SelectedExactly(parent, es);
    var i :| 0 <= i < |es| && Keep(parent, es[i]) && Selected(parent, es)[k] == RecordOf(es[i]);
    assert es[i] == EntryOf(infos[i]).value;
  }
}
