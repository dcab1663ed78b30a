/**
 * The NPC agent's primitives (src/agents/npc_agent.py): the site parser that turns an AgentSpeak
 * argument into a cell, and the effects of the `.move`, `.catch`, `.drop` and
 * `.update_inventory` actions on the inventory and on the world's step queue.
 */
module Agent {
  import opened Wrappers
  import opened Cells
  import opened BaseAgent
  import opened Bridge

  /** The Python values an action argument can hold, as far as the parser looks at them. */
  datatype PyValue =
    | PyNone
    | PyBool(b: bool)
    | PyInt(i: int)
    | PyStr(s: string)
    | PyTuple(elems: seq<PyValue>)
    | PyList(elems: seq<PyValue>)
    | PyDict(entries: map<string, PyValue>)

  // ---------------------------------------------------------------------------------------------
  // int() on strings
  // ---------------------------------------------------------------------------------------------

  /** Python's `str.isspace()`: the characters `strip()` and `int()` skip. */
  predicate IsSpace(c: char)
  {
    || c == ' ' || '\t' <= c <= '\r' || '\U{1C}' <= c <= '\U{1F}'
    || c == '\U{85}' || c == '\U{A0}' || c == '\U{1680}' || '\U{2000}' <= c <= '\U{200A}'
    || c == '\U{2028}' || c == '\U{2029}' || c == '\U{202F}' || c == '\U{205F}' || c == '\U{3000}'
  }

  predicate AllSpace(s: string)
  {
    forall i :: 0 <= i < |s| ==> IsSpace(s[i])
  }

  /** Drops leading whitespace: what is dropped is all whitespace and what remains does not start with it. */
  function StripLeft(s: string): (r: string)
    ensures |r| <= |s| && r == s[|s| - |r|..]
    ensures forall m :: 0 <= m < |s| - |r| ==> IsSpace(s[m])
    ensures r != [] ==> !IsSpace(r[0])
  {
    if s != [] && IsSpace(s[0]) then StripLeft(s[1..]) else s
  }

  /** Drops trailing whitespace: what is dropped is all whitespace and what remains does not end with it. */
  function StripRight(s: string): (r: string)
    ensures |r| <= |s| && r == s[..|r|]
    ensures forall m :: |r| <= m < |s| ==> IsSpace(s[m])
    ensures r != [] ==> !IsSpace(r[|r| - 1])
  {
    if s != [] && IsSpace(s[|s| - 1]) then StripRight(s[..|s| - 1]) else s
  }

  /** `s.strip()`. */
  function Strip(s: string): string
  {
    StripRight(StripLeft(s))
  }

  /** The stripped text is a slice of the input with only whitespace cut from either end. */
  lemma StripIsTrim(s: string) returns (i: nat, j: nat)
    ensures i <= j <= |s| && Strip(s) == s[i..j]
    ensures forall m :: 0 <= m < i ==> IsSpace(s[m])
    ensures forall m :: j <= m < |s| ==> IsSpace(s[m])
    ensures Strip(s) != [] ==> !IsSpace(Strip(s)[0]) && !IsSpace(Strip(s)[|Strip(s)| - 1])
  {
    var l := StripLeft(s);
    var r := StripRight(l);
    i := |s| - |l|;
    j := i + |r|;
    assert s[i..j] == l[..|r|];
    forall m | j <= m < |s| ensures IsSpace(s[m]) {
      assert l[m - i] == s[m];
    }
  }

  /** Whitespace around a text without whitespace at its ends is exactly what `strip()` removes. */
  lemma StripPadded(pre: string, core: string, post: string)
    requires AllSpace(pre) && AllSpace(post)
    requires core != [] && !IsSpace(core[0]) && !IsSpace(core[|core| - 1])
    ensures Strip(pre + core + post) == core
  {
    assert pre + core + post == pre + (core + post);
    StripLeftPadded(pre, core + post);
    assert (core + post)[0] == core[0];
    StripRightPadded(core, post);
  }

  lemma {:induction false} StripLeftPadded(pre: string, rest: string)
    requires AllSpace(pre)
    ensures StripLeft(pre + rest) == StripLeft(rest)
  {
    if pre != [] {
      assert (pre + rest)[0] == pre[0];
      assert (pre + rest)[1..] == pre[1..] + rest;
      StripLeftPadded(pre[1..], rest);
    } else {
      assert pre + rest == rest;
    }
  }

  lemma {:induction false} StripRightPadded(core: string, post: string)
    requires AllSpace(post)
    requires core != [] && !IsSpace(core[|core| - 1])
    ensures StripRight(core + post) == core
  {
    if post != [] {
      assert (core + post)[|core + post| - 1] == post[|post| - 1];
      assert (core + post)[..|core + post| - 1] == core + post[..|post| - 1];
      StripRightPadded(core, post[..|post| - 1]);
    } else {
      assert core + post == core;
    }
  }

  /** Stripping twice is stripping once. */
  lemma StripIdempotent(s: string)
    ensures Strip(Strip(s)) == Strip(s)
  {
    var t := Strip(s);
    var _, _ := StripIsTrim(s);
    if t != [] {
      StripPadded([], t, []);
      assert [] + t + [] == t;
    }
  }

  predicate IsDigit(c: char)
  {
    '0' <= c <= '9'
  }

  predicate AllDigits(d: string)
  {
    forall i :: 0 <= i < |d| ==> IsDigit(d[i])
  }

  /** The value of a string of decimal digits, most significant first. */
  function DigitsValue(d: string): nat
    requires AllDigits(d)
  {
    if d == [] then 0 else DigitsValue(d[..|d| - 1]) * 10 + (d[|d| - 1] as int - '0' as int)
  }

  /** An optional sign followed by one or more ASCII digits, and nothing else. */
  function ParseSigned(t: string): Option<int>
  {
    if t != [] && (t[0] == '+' || t[0] == '-') then
      if |t| > 1 && AllDigits(t[1..]) then
        var v := DigitsValue(t[1..]) as int;
        Some(if t[0] == '-' then -v else v)
      else None
    else if t != [] && AllDigits(t) then Some(DigitsValue(t))
    else None
  }

  /** `int(text)` for a `str` in base 10: whitespace around a signed decimal numeral; a `ValueError` is `None`. */
  function ParseInt(text: string): Option<int>
  {
    ParseSigned(Strip(text))
  }

  function DigitChar(n: nat): (c: char)
    requires n < 10
    ensures IsDigit(c) && c as int - '0' as int == n
  {
    ('0' as int + n) as char
  }

  /** The decimal digits of `n`, without leading zeros. */
  function NatToDigits(n: nat): (d: string)
    ensures d != [] && AllDigits(d)
    ensures |d| > 1 ==> d[0] != '0'
  {
    if n < 10 then [DigitChar(n)] else NatToDigits(n / 10) + [DigitChar(n % 10)]
  }

  /** `str(n)`. */
  function IntToString(n: int): (s: string)
    ensures s != [] && !IsSpace(s[0]) && !IsSpace(s[|s| - 1])
    ensures forall k :: 0 <= k < |s| ==> IsDigit(s[k]) || s[k] == '-'
  {
    if n < 0 then "-" + NatToDigits(-n) else NatToDigits(n)
  }

  /** Reading back the digits of `n` gives `n`. */
  lemma {:induction false} DigitsRoundTrip(n: nat)
    ensures DigitsValue(NatToDigits(n)) == n
  {
    var d := NatToDigits(n);
    if n >= 10 {
      DigitsRoundTrip(n / 10);
      assert d[..|d| - 1] == NatToDigits(n / 10);
    }
  }

  /** The numeral of `n` parses back to `n`. */
  lemma ParseSignedShow(n: int)
    ensures ParseSigned(IntToString(n)) == Some(n)
  {
    var s := IntToString(n);
    if n < 0 {
      assert s[1..] == NatToDigits(-n);
      DigitsRoundTrip(-n);
    } else {
      DigitsRoundTrip(n);
    }
  }

  /** `int(str(n)) == n`, also with whitespace around the numeral. */
  lemma ParseShowRoundTrip(n: int, pre: string, post: string)
    requires AllSpace(pre) && AllSpace(post)
    ensures ParseInt(pre + IntToString(n) + post) == Some(n)
  {
    StripPadded(pre, IntToString(n), post);
    ParseSignedShow(n);
  }

  /** A text holding a character that is neither whitespace, a sign nor a digit is not an integer. */
  lemma ParseRejectsForeignChar(text: string, k: nat)
    requires k < |text| && !IsSpace(text[k]) && !IsDigit(text[k]) && text[k] != '+' && text[k] != '-'
    ensures ParseInt(text) == None
  {
    var i, j := StripIsTrim(text);
    var t := Strip(text);
    assert t[k - i] == text[k];
    if t[0] == '+' || t[0] == '-' {
      assert t[1..][k - i - 1] == text[k];
    }
  }

  /** Parsing already strips, so stripping first changes nothing. */
  lemma StripKeepsParse(s: string)
    ensures ParseInt(Strip(s)) == ParseInt(s)
  {
    StripIdempotent(s);
  }

  // ---------------------------------------------------------------------------------------------
  // _normalize_site_to_xy
  // ---------------------------------------------------------------------------------------------

  /** `int(v)`: booleans are 0 and 1, strings are parsed, containers and `None` raise. */
  function ToInt(v: PyValue): Option<int>
  {
    match v
    case PyBool(b) => Some(if b then 1 else 0)
    case PyInt(i) => Some(i)
    case PyStr(s) => ParseInt(s)
    case _ => None
  }

  predicate NoComma(s: string)
  {
    forall j :: 0 <= j < |s| ==> s[j] != ','
  }

  /** The position of the first `c` in `s`, if any. */
  function FirstIndexOf(s: string, c: char): (r: Option<nat>)
    ensures r.Some? ==> r.value < |s| && s[r.value] == c && forall j :: 0 <= j < r.value ==> s[j] != c
    ensures r.None? ==> forall j :: 0 <= j < |s| ==> s[j] != c
  {
    if s == [] then None
    else if s[0] == c then Some(0)
    else
      var r := FirstIndexOf(s[1..], c);
      if r.None? then None else Some(r.value + 1)
  }

  /** `s.split(",", 1)` when `s` holds a comma: the text before the first comma and the text after it. */
  function SplitAtFirstComma(s: string): (r: Option<(string, string)>)
    ensures r.None? <==> NoComma(s)
    ensures r.Some? ==> s == r.value.0 + "," + r.value.1 && NoComma(r.value.0)
  {
    var i := FirstIndexOf(s, ',');
    if i.None? then None
    else
      assert s == s[..i.value] + "," + s[i.value + 1..];
      Some((s[..i.value], s[i.value + 1..]))
  }

  /** The first comma after a comma-free prefix is the one that splits. */
  lemma SplitAfterCommaFree(left: string, right: string)
    requires NoComma(left)
    ensures SplitAtFirstComma(left + "," + right) == Some((left, right))
  {
    var s := left + "," + right;
    assert s[|left|] == ',';
    forall j | 0 <= j < |left| ensures s[j] != ',' {
      assert s[j] == left[j];
    }
    assert FirstIndexOf(s, ',') == Some(|left|);
    assert s[..|left|] == left;
    assert s[|left| + 1..] == right;
  }

  /** A comma at `i` means the split happens at or before `i`. */
  lemma SplitAtOrBefore(s: string, i: nat)
    requires i < |s| && s[i] == ','
    ensures SplitAtFirstComma(s).Some? && |SplitAtFirstComma(s).value.0| <= i
  {
    assert !NoComma(s);
    var f := FirstIndexOf(s, ',').value;
    assert f <= i;
  }

  /** Whitespace and numerals hold no comma, and neither does their concatenation. */
  lemma NumeralPaddedNoComma(n: int, pre: string, post: string)
    requires AllSpace(pre) && AllSpace(post)
    ensures NoComma(pre + IntToString(n) + post)
  {
    var t := IntToString(n);
    var u := pre + t + post;
    forall j | 0 <= j < |u| ensures u[j] != ',' {
      if j < |pre| {
        assert u[j] == pre[j];
      } else if j < |pre| + |t| {
        assert u[j] == t[j - |pre|];
      } else {
        assert u[j] == post[j - |pre| - |t|];
      }
    }
  }

  /** The string form: split at the first comma, then strip and convert each side. */
  function SiteFromText(s: string): Option<(int, int)>
  {
    var parts := SplitAtFirstComma(s);
    if parts.None? then None
    else BothInts(ParseInt(Strip(parts.value.0)), ParseInt(Strip(parts.value.1)))
  }

  /** Both conversions must succeed. */
  function BothInts(a: Option<int>, b: Option<int>): Option<(int, int)>
  {
    if a.Some? && b.Some? then Some((a.value, b.value)) else None
  }

  /**
   * `_normalize_site_to_xy(site)`: a 2-element tuple or list, a string split at its first comma, or a
   * dict with keys "x" and "y", each part converted with `int()`; any other shape, and any failing
   * conversion, gives `None`.
   */
  function NormalizeSiteToXY(site: PyValue): (r: Option<(int, int)>)
    ensures r.Some? ==>
      || ((site.PyTuple? || site.PyList?) && |site.elems| == 2)
      || (site.PyStr? && !NoComma(site.s))
      || (site.PyDict? && "x" in site.entries && "y" in site.entries)
  {
    if (site.PyTuple? || site.PyList?) && |site.elems| == 2 then
      BothInts(ToInt(site.elems[0]), ToInt(site.elems[1]))
    else if site.PyStr? && !NoComma(site.s) then SiteFromText(site.s)
    else if site.PyDict? && "x" in site.entries && "y" in site.entries then
      BothInts(ToInt(site.entries["x"]), ToInt(site.entries["y"]))
    else None
  }

  /** `(x, y)` and `[x, y]` of integers give `(x, y)`. */
  lemma SiteFromPair(x: int, y: int)
    ensures NormalizeSiteToXY(PyTuple([PyInt(x), PyInt(y)])) == Some((x, y))
    ensures NormalizeSiteToXY(PyList([PyInt(x), PyInt(y)])) == Some((x, y))
  {
  }

  /** `"x,y"`, with any whitespace around either numeral, gives `(x, y)`. */
  lemma SiteFromString(x: int, y: int, p1: string, p2: string, p3: string, p4: string)
    requires AllSpace(p1) && AllSpace(p2) && AllSpace(p3) && AllSpace(p4)
    ensures NormalizeSiteToXY(PyStr((p1 + IntToString(x) + p2) + "," + (p3 + IntToString(y) + p4))) == Some((x, y))
  {
    var left := p1 + IntToString(x) + p2;
    var right := p3 + IntToString(y) + p4;
    SiteOfText(left + "," + right);
    TextFromNumerals(x, y, p1, p2, p3, p4);
  }

  lemma TextFromNumerals(x: int, y: int, p1: string, p2: string, p3: string, p4: string)
    requires AllSpace(p1) && AllSpace(p2) && AllSpace(p3) && AllSpace(p4)
    ensures SiteFromText((p1 + IntToString(x) + p2) + "," + (p3 + IntToString(y) + p4)) == Some((x, y))
  {
    var left := p1 + IntToString(x) + p2;
    var right := p3 + IntToString(y) + p4;
    NumeralPaddedNoComma(x, p1, p2);
    SplitAfterCommaFree(left, right);
    ParseShowRoundTrip(x, p1, p2);
    ParseShowRoundTrip(y, p3, p4);
    StripKeepsParse(left);
    StripKeepsParse(right);
  }

  /** A string with a second comma fails: the second part still holds a comma, e.g. "1,2,3". */
  lemma SiteWithTwoCommas(s: string, i: nat, j: nat)
    requires i < j < |s| && s[i] == ',' && s[j] == ','
    ensures NormalizeSiteToXY(PyStr(s)) == None
  {
    SiteOfText(s);
    TextWithTwoCommas(s, i, j);
  }

  /** A string site is read by its string form whether or not it holds a comma. */
  lemma SiteOfText(s: string)
    ensures NormalizeSiteToXY(PyStr(s)) == SiteFromText(s)
  {
  }

  lemma TextWithTwoCommas(s: string, i: nat, j: nat)
    requires i < j < |s| && s[i] == ',' && s[j] == ','
    ensures SiteFromText(s) == None
  {
    SplitAtOrBefore(s, i);
    var parts := SplitAtFirstComma(s).value;
    var f := |parts.0|;
    assert parts.1[j - f - 1] == s[j];
    ParseRejectsForeignChar(parts.1, j - f - 1);
    StripKeepsParse(parts.1);
  }

  /** The example "1,2,3" gives `None`. */
  lemma SiteOneTwoThree()
    ensures NormalizeSiteToXY(PyStr("1,2,3")) == None
  {
    SiteWithTwoCommas("1,2,3", 1, 3);
  }

  /** A dict with keys "x" and "y" gives their conversions. */
  lemma SiteFromDict(entries: map<string, PyValue>, x: int, y: int)
    requires "x" in entries && "y" in entries && ToInt(entries["x"]) == Some(x) && ToInt(entries["y"]) == Some(y)
    ensures NormalizeSiteToXY(PyDict(entries)) == Some((x, y))
  {
  }

  /** Scalars, wrong-length sequences, comma-free strings and dicts missing a key give `None`. */
  lemma SiteOtherShapes(site: PyValue)
    requires || site.PyNone? || site.PyBool? || site.PyInt?
             || ((site.PyTuple? || site.PyList?) && |site.elems| != 2)
             || (site.PyStr? && NoComma(site.s))
             || (site.PyDict? && ("x" !in site.entries || "y" !in site.entries))
    ensures NormalizeSiteToXY(site) == None
  {
  }

  // ---------------------------------------------------------------------------------------------
  // The actions
  // ---------------------------------------------------------------------------------------------

  /** `.update_inventory` fails before doing anything when its count is not an integer. */
  datatype ActionError = ValueError(count: PyValue)

  /** The inventory after `.update_inventory(obj, count, op)`: a raising subtract and an unknown op change nothing. */
  function InventoryOp(items: map<string, int>, obj: string, count: int, op: string): (r: map<string, int>)
    ensures op != "add" && op != "subtract" ==> r == items
    ensures op == "add" ==> CountOf(r, obj) == CountOf(items, obj) + count
    ensures op == "subtract" && CountOf(items, obj) < count ==> r == items
    ensures op == "subtract" && obj !in items && count <= 0 ==> r == items
    ensures op == "subtract" && count <= CountOf(items, obj) && (obj in items || count > 0) ==>
      CountOf(r, obj) == CountOf(items, obj) - count
    ensures forall o :: o != obj ==> CountOf(r, o) == CountOf(items, o)
  {
    if op == "add" then AddItems(items, obj, count)
    else if op == "subtract" then
      var s := SubtractItems(items, obj, count);
      if s.Success? then s.value else items
    else items
  }

  /** An "add" followed by a "subtract" of the same count restores a positive inventory. */
  lemma UpdateAddThenSubtract(items: map<string, int>, obj: string, count: int)
    requires AllPositive(items)
    ensures InventoryOp(InventoryOp(items, obj, count, "add"), obj, count, "subtract") == items
  {
    AddThenSubtractRestores(items, obj, count);
  }

  /** With a positive count, either op keeps every stored count positive. */
  lemma UpdateKeepsPositive(items: map<string, int>, obj: string, count: int, op: string)
    requires AllPositive(items) && count > 0
    ensures AllPositive(InventoryOp(items, obj, count, op))
  {
    if op == "add" {
      AddKeepsPositive(items, obj, count);
    } else if op == "subtract" {
      SubtractKeepsPositive(items, obj, count);
    }
  }

  /** `.drop` subtracts one, which never raises; with none in stock nothing changes. */
  lemma DropNeverRaises(items: map<string, int>, obj: string)
    ensures SubtractItems(items, obj, 1).Success?
    ensures obj !in items ==> SubtractItems(items, obj, 1).value == items
  {
  }

  /** `.catch` then `.drop` of the same object restores a positive inventory. */
  lemma CatchThenDropRestores(items: map<string, int>, obj: string)
    requires AllPositive(items)
    ensures SubtractItems(AddItems(items, obj, 1), obj, 1) == Success(items)
  {
    AddThenSubtractRestores(items, obj, 1);
  }

  class NpcAgent<W> {
    const npcId: string
    const inventory: Inventory
    /** The optional bridge to the world; `null` when the agent runs without one. */
    const gameIo: GameIOBridge?<W>

    constructor (npcId: string, inventory: Inventory, gameIo: GameIOBridge?<W>)
      ensures this.npcId == npcId && this.inventory == inventory && this.gameIo == gameIo
    {
      this.npcId := npcId;
      this.inventory := inventory;
      this.gameIo := gameIo;
    }

    /**
     * `.move(site)`: an unparseable site enqueues nothing; otherwise the bridge plans a route to the
     * cell for this agent's id. Without a bridge only a log line is written.
     */
    method Move(site: PyValue)
      requires gameIo != null ==> gameIo.steps.Valid()
      modifies if gameIo != null then {gameIo.steps} else {}
      ensures gameIo != null ==> gameIo.steps.Valid()
      ensures gameIo != null && NormalizeSiteToXY(site).None? ==> gameIo.steps.steps == old(gameIo.steps.steps)
      ensures gameIo != null && NormalizeSiteToXY(site).Some? ==>
        var xy := NormalizeSiteToXY(site).value;
        gameIo.steps.steps == old(gameIo.steps.steps) + gameIo.Planned(xy.0, xy.1, Some(npcId))
    {
      var xy := NormalizeSiteToXY(site);
      if xy.None? {
        return;
      }
      if gameIo != null {
        gameIo.MoveToCell(xy.value.0, xy.value.1, Some(npcId));
      }
    }

    /** `.catch(obj)`: one more `obj` in the inventory. */
    method Catch(obj: string)
      modifies inventory
      ensures inventory.items == AddItems(old(inventory.items), obj, 1)
      ensures inventory.beliefs == old(inventory.beliefs) + BeliefCalls(inventory.hasBdi, inventory.items, obj)
    {
      inventory.Add(obj, 1);
    }

    /** `.drop(obj, site)`: an unparseable site changes nothing; otherwise one `obj` is subtracted. */
    method Drop(obj: string, site: PyValue)
      modifies inventory
      ensures NormalizeSiteToXY(site).None? ==>
        inventory.items == old(inventory.items) && inventory.beliefs == old(inventory.beliefs)
      ensures NormalizeSiteToXY(site).Some? ==>
        && inventory.items == SubtractItems(old(inventory.items), obj, 1).value
        && inventory.beliefs == old(inventory.beliefs) + BeliefCalls(inventory.hasBdi, inventory.items, obj)
    {
      var xy := NormalizeSiteToXY(site);
      if xy.None? {
        return;
      }
      var _ := inventory.Subtract(obj, 1);
    }

    /**
     * `.update_inventory(obj, count, op)`: a count that `int()` rejects raises before anything
     * changes; a raising subtract is caught and logged; an unknown op is only logged.
     */
    method UpdateInventory(obj: string, count: PyValue, op: string) returns (r: Outcome<ActionError>)
      modifies inventory
      ensures ToInt(count).None? ==>
        r == Fail(ValueError(count)) && inventory.items == old(inventory.items) && inventory.beliefs == old(inventory.beliefs)
      ensures ToInt(count).Some? ==>
        && r == Pass
        && inventory.items == InventoryOp(old(inventory.items), obj, ToInt(count).value, op)
        && inventory.beliefs == old(inventory.beliefs)
             + (if op == "add" || (op == "subtract" && SubtractItems(old(inventory.items), obj, ToInt(count).value).Success?)
                then BeliefCalls(inventory.hasBdi, inventory.items, obj) else [])
    {
      var n := ToInt(count);
      if n.None? {
        return Fail(ValueError(count));
      }
      r := Pass;
      if op == "add" {
        inventory.Add(obj, n.value);
      } else if op == "subtract" {
        var _ := inventory.Subtract(obj, n.value);
      }
    }
  }
}
