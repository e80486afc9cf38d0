/**
  The classes panel: adding a class from the typed name and the current
  colour, the random colour generator, row highlighting and the open/closed
  rule tied to the window width.

  The generator's random numbers are supplied by the caller: each colour
  takes six draws, each already reduced to an index in [0, 16).
 */
module ClassesPanel {
  import opened Wrappers
  import opened HexDigits
  import ClassesInput

  datatype ClassItem = ClassItem(id: int, name: string, color: string)

  datatype Panel = Panel(
    newClassName: string,  // the text in the input
    currentColor: string,  // the colour the next class will get
    isOpen: bool
  )

  /** The arguments handed to the parent's add-class callback. */
  datatype AddRequest = AddRequest(className: string, color: string)

  /** Window widths from this value up count as large screens. */
  const OpenWidth: int := 800

  // ---------------------------------------------------------------------
  // Blank names
  // ---------------------------------------------------------------------

  /**
    The characters `String.prototype.trim` strips: the ECMAScript white
    space characters (tab, vertical tab, form feed, space, no-break space,
    byte order mark and the space separators) and the line terminators.
   */
  predicate IsWhitespace(c: char) {
    || c == '\t' || c == '\n' || c == '\U{000B}' || c == '\U{000C}' || c == '\r' || c == ' '
    || c == '\U{00A0}' || c == '\U{1680}' || ('\U{2000}' <= c <= '\U{200A}')
    || c == '\U{2028}' || c == '\U{2029}' || c == '\U{202F}' || c == '\U{205F}'
    || c == '\U{3000}' || c == '\U{FEFF}'
  }

  /** `s` without its leading white space. */
  function TrimStart(s: string): (r: string)
    ensures |r| <= |s| && r == s[|s| - |r|..]
    ensures forall i :: 0 <= i < |s| - |r| ==> IsWhitespace(s[i])
    ensures |r| > 0 ==> !IsWhitespace(r[0])
    decreases |s|
  {
    if |s| > 0 && IsWhitespace(s[0]) then TrimStart(s[1..]) else s
  }

  /** `s` without its trailing white space. */
  function TrimEnd(s: string): (r: string)
    ensures |r| <= |s| && r == s[..|r|]
    ensures forall i :: |r| <= i < |s| ==> IsWhitespace(s[i])
    ensures |r| > 0 ==> !IsWhitespace(r[|r| - 1])
    decreases |s|
  {
    if |s| > 0 && IsWhitespace(s[|s| - 1]) then TrimEnd(s[..|s| - 1]) else s
  }

  /** Neither end of the trimmed text is white space. */
  function Trim(s: string): (r: string)
    ensures |r| <= |s|
    ensures |r| > 0 ==> !IsWhitespace(r[0]) && !IsWhitespace(r[|r| - 1])
  {
    TrimEnd(TrimStart(s))
  }

  /** A name the add button ignores: trimming leaves nothing. */
  predicate IsBlank(name: string)
    ensures IsBlank(name) ==> forall i :: 0 <= i < |name| ==> IsWhitespace(name[i])
  {
    Trim(name) == ""
  }

  /** A name is blank exactly when every character of it is white space. */
  lemma BlankIffAllWhitespace(name: string)
    ensures IsBlank(name) <==> forall i :: 0 <= i < |name| ==> IsWhitespace(name[i])
  {
  }

  // ---------------------------------------------------------------------
  // Random colours
  // ---------------------------------------------------------------------

  /** Six random indices into the digit alphabet. */
  predicate ValidDraws(draws: seq<int>) {
    |draws| == 6 && forall i :: 0 <= i < 6 ==> 0 <= draws[i] < 16
  }

  /** The alphabet letters the draws pick, in order. */
  function DrawLetters(draws: seq<int>): (s: string)
    requires forall i :: 0 <= i < |draws| ==> 0 <= draws[i] < 16
    ensures |s| == |draws|
    ensures forall i :: 0 <= i < |draws| ==> s[i] == Letters[draws[i]]
    decreases |draws|
  {
    if |draws| == 0 then "" else [Letters[draws[0]]] + DrawLetters(draws[1..])
  }

  /** The colour the generator makes from `draws`. */
  function RandomColor(draws: seq<int>): (c: string)
    requires ValidDraws(draws)
    ensures |c| == 7 && c[0] == '#'
    ensures forall i :: 1 <= i < 7 ==> c[i] == Letters[draws[i - 1]]
  {
    "#" + DrawLetters(draws)
  }

  /** The generator's loop: start from `#` and append one letter per draw. */
  method GetRandomColor(draws: seq<int>) returns (color: string)
    requires ValidDraws(draws)
    ensures color == RandomColor(draws)
    ensures |color| == 7 && color[0] == '#' && AllHex(color[1..])
  {
    color := "#";
    var i := 0;
    while i < 6
      invariant 0 <= i <= 6
      invariant |color| == i + 1 && color[0] == '#'
      invariant forall k :: 0 <= k < i ==> color[k + 1] == Letters[draws[k]]
    {
      color := color + [Letters[draws[i]]];
      i := i + 1;
    }
    assert forall k :: 0 <= k < 7 ==> color[k] == RandomColor(draws)[k];
    forall k | 0 <= k < 6
      ensures IsHexDigit(color[1..][k])
    {
      LettersDecode(draws[k]);
    }
  }

  /**
    A generated colour is always one the lightening accepts, and its
    channels are the draws read in pairs.
   */
  lemma {:induction false} GeneratedColorIsLightenable(draws: seq<int>)
    requires ValidDraws(draws)
    ensures ClassesInput.ValidColor(RandomColor(draws))
    ensures ClassesInput.Channels(RandomColor(draws)) ==
      ClassesInput.Rgb(16 * draws[0] + draws[1], 16 * draws[2] + draws[3], 16 * draws[4] + draws[5])
  {
    var c := RandomColor(draws);
    var s := ClassesInput.Sanitize(c);
    assert s == c[1..];
    forall k | 0 <= k < 6
      ensures IsHexDigit(s[k]) && DigitValue(s[k]) == draws[k]
    {
      LettersDecode(draws[k]);
    }
    assert ClassesInput.ValidColor(c);
    ClassesInput.ChannelsOfDigits(c);
  }

  // ---------------------------------------------------------------------
  // Adding a class
  // ---------------------------------------------------------------------

  /** The panel as first shown: empty input, a fresh colour, open. */
  function InitialPanel(draws: seq<int>): (p: Panel)
    requires ValidDraws(draws)
    ensures p.newClassName == "" && p.isOpen
    ensures p.currentColor == RandomColor(draws)
  {
    Panel("", RandomColor(draws), true)
  }

  /** The reload icon: a colour made from `draws` replaces the current one. */
  function ReloadColor(p: Panel, draws: seq<int>): (r: Panel)
    requires ValidDraws(draws)
    ensures r.currentColor == RandomColor(draws)
    ensures r.newClassName == p.newClassName && r.isOpen == p.isOpen
  {
    p.(currentColor := RandomColor(draws))
  }

  /**
    The add button: a blank name does nothing. Otherwise the parent is
    given the name as typed (untrimmed) and the current colour, the input
    is cleared and a new colour made from `draws` replaces the current one.
   */
  function HandleAddClassClick(p: Panel, draws: seq<int>): (r: (Panel, Option<AddRequest>))
    requires ValidDraws(draws)
    ensures IsBlank(p.newClassName) ==> r.0 == p && r.1 == None
    ensures !IsBlank(p.newClassName) ==>
      && r.1 == Some(AddRequest(p.newClassName, p.currentColor))
      && r.0 == Panel("", RandomColor(draws), p.isOpen)
  {
    if IsBlank(p.newClassName) then (p, None)
    else (p.(newClassName := "", currentColor := RandomColor(draws)), Some(AddRequest(p.newClassName, p.currentColor)))
  }

  /** A name made only of white space is never sent to the parent. */
  lemma WhitespaceNameIsIgnored(p: Panel, draws: seq<int>)
    requires ValidDraws(draws)
    requires forall i :: 0 <= i < |p.newClassName| ==> IsWhitespace(p.newClassName[i])
    ensures HandleAddClassClick(p, draws) == (p, None)
  {
    BlankIffAllWhitespace(p.newClassName);
  }

  /** A name with any visible character is sent exactly as typed. */
  lemma VisibleNameIsSentAsTyped(p: Panel, draws: seq<int>, k: nat)
    requires ValidDraws(draws)
    requires k < |p.newClassName| && !IsWhitespace(p.newClassName[k])
    ensures HandleAddClassClick(p, draws).1 == Some(AddRequest(p.newClassName, p.currentColor))
    ensures HandleAddClassClick(p, draws).0.newClassName == ""
  {
    BlankIffAllWhitespace(p.newClassName);
  }

  /** The icon colour stays well defined across adds: every colour the panel holds is lightenable. */
  lemma {:induction false} AddKeepsColorLightenable(p: Panel, draws: seq<int>)
    requires ValidDraws(draws) && ClassesInput.ValidColor(p.currentColor)
    ensures ClassesInput.ValidColor(HandleAddClassClick(p, draws).0.currentColor)
  {
    GeneratedColorIsLightenable(draws);
  }

  // ---------------------------------------------------------------------
  // Highlighting
  // ---------------------------------------------------------------------

  /** A row is drawn with a border when its id is the selected one. */
  predicate IsSelected(item: ClassItem, selectedClassId: Option<int>)
    ensures IsSelected(item, selectedClassId) ==> selectedClassId.Some?
  {
    selectedClassId == Some(item.id)
  }

  /** The positions of the highlighted rows. */
  function Highlighted(classes: seq<ClassItem>, selectedClassId: Option<int>): (rows: set<nat>)
    ensures forall i :: i in rows ==> i < |classes|
  {
    set i: nat | i < |classes| && IsSelected(classes[i], selectedClassId)
  }

  predicate UniqueIds(classes: seq<ClassItem>) {
    forall i, j :: 0 <= i < j < |classes| ==> classes[i].id != classes[j].id
  }

  /** With nothing selected no row is highlighted. */
  lemma NoSelectionHighlightsNothing(classes: seq<ClassItem>)
    ensures Highlighted(classes, None) == {}
  {
  }

  /** A row is highlighted exactly when its id is the selected id. */
  lemma HighlightedIffSameId(classes: seq<ClassItem>, id: int, i: nat)
    requires i < |classes|
    ensures i in Highlighted(classes, Some(id)) <==> classes[i].id == id
  {
  }

  /** When ids are unique, at most one row is highlighted. */
  lemma UniqueIdsHighlightAtMostOne(classes: seq<ClassItem>, selectedClassId: Option<int>)
    requires UniqueIds(classes)
    ensures |Highlighted(classes, selectedClassId)| <= 1
  {
    var rows := Highlighted(classes, selectedClassId);
    if rows != {} {
      var i :| i in rows;
      forall j | j in rows
        ensures j == i
      {
        assert classes[j].id == classes[i].id;
      }
      assert rows == {i};
    }
  }

  // ---------------------------------------------------------------------
  // Open and closed
  // ---------------------------------------------------------------------

  /** On a resize the panel is opened on large windows and closed on small ones. */
  function Resize(p: Panel, windowWidth: int): (r: Panel)
    ensures r.newClassName == p.newClassName && r.currentColor == p.currentColor
  {
    p.(isOpen := windowWidth >= OpenWidth)
  }

  /** The open and close buttons both flip the panel. */
  function TogglePanel(p: Panel): (r: Panel)
    ensures r.isOpen == !p.isOpen
    ensures r.newClassName == p.newClassName && r.currentColor == p.currentColor
  {
    p.(isOpen := !p.isOpen)
  }

  /** The "Classes" button shows on small windows while the panel is closed. */
  predicate OpenButtonShown(p: Panel, windowWidth: int)
    ensures OpenButtonShown(p, windowWidth) ==> !CloseButtonShown(p, windowWidth)
  {
    windowWidth < OpenWidth && !p.isOpen
  }

  /** The close button is inside the open panel and shows on small windows. */
  predicate CloseButtonShown(p: Panel, windowWidth: int)
    ensures CloseButtonShown(p, windowWidth) ==> p.isOpen
  {
    p.isOpen && windowWidth < OpenWidth
  }

  /** After a resize the panel is open exactly when the window is at least 800 wide. */
  lemma ResizeOpensIffWide(p: Panel, windowWidth: int)
    ensures Resize(p, windowWidth).isOpen <==> windowWidth >= OpenWidth
  {
  }

  /** On a small window exactly one of the two buttons is on screen. */
  lemma NarrowWindowShowsOneButton(p: Panel, windowWidth: int)
    requires windowWidth < OpenWidth
    ensures OpenButtonShown(p, windowWidth) != CloseButtonShown(p, windowWidth)
  {
  }

  /**
    After a resize that changes whether the panel is open (only such a
    resize redraws the panel), the user sees either the panel or the button
    that opens it, and on a wide window neither button.
   */
  lemma ResizeLeavesPanelReachable(p: Panel, windowWidth: int)
    ensures p.isOpen != (windowWidth >= OpenWidth) ==>
      var r := Resize(p, windowWidth);
      r.isOpen != OpenButtonShown(r, windowWidth)
    ensures p.isOpen != (windowWidth >= OpenWidth) && windowWidth >= OpenWidth ==>
      var r := Resize(p, windowWidth);
      !OpenButtonShown(r, windowWidth) && !CloseButtonShown(r, windowWidth)
  {
  }

  /** Clicking the open or close button twice gives back the panel it started from. */
  lemma TogglePanelTwiceRestores(p: Panel)
    ensures TogglePanel(TogglePanel(p)) == p
  {
  }

  /**
    On a small window a click on the shown button swaps which of the two
    buttons is shown: "Classes" opens the panel and brings up the close
    button, and the close button brings back "Classes".
   */
  lemma ToggleSwapsButtons(p: Panel, windowWidth: int)
    requires windowWidth < OpenWidth
    ensures OpenButtonShown(p, windowWidth) <==> CloseButtonShown(TogglePanel(p), windowWidth)
    ensures CloseButtonShown(p, windowWidth) <==> OpenButtonShown(TogglePanel(p), windowWidth)
  {
  }
}
