/** The JavaScript the action layer injects into the game page: key and
    mouse events, chat text, and the string escaping that protects it.
    Running the script in the browser is not modelled; each operation
    yields the script and the entry it logs after a successful run. */
module Action {
  import opened Wrappers
  import opened Text

  /** Key modes (`iota` order). */
  const KeyPress := 0
  const KeyHold := 1
  const KeyRelease := 2

  /** Mouse modes (`iota` order). */
  const MouseMove := 0
  const MouseClick := 1
  const MouseMobClick := 2
  const MousePress := 3
  const MouseHold := 4
  const MouseRelease := 5

  const InvalidContext := "browser context is invalid"

  /** The escape of one rune: quote, backslash, newline and carriage return
      get a backslash form, everything else is copied. */
  function EscapeRune(c: char): (e: string)
    ensures c !in {'\'', '\\', '\n', '\r'} ==> e == [c]
    ensures c in {'\'', '\\', '\n', '\r'} ==> |e| == 2 && e[0] == '\\'
  {
    match c
    case '\'' => "\\'"
    case '\\' => "\\\\"
    case '\n' => "\\n"
    case '\r' => "\\r"
    case _ => [c]
  }

  /** `escapeJavaScriptString` as a function of its input. */
  function Escape(s: string): string
  {
    if s == [] then [] else Escape(s[..|s| - 1]) + EscapeRune(s[|s| - 1])
  }

  /** The loop of `escapeJavaScriptString`, appending rune by rune. */
  method EscapeJavaScriptString(s: string) returns (result: string)
    ensures result == Escape(s)
  {
    result := "";
    var i := 0;
    while i < |s|
      invariant 0 <= i <= |s|
      invariant result == Escape(s[..i])
    {
      assert s[..i + 1][..i] == s[..i];
      result := result + EscapeRune(s[i]);
      i := i + 1;
    }
    assert s[..i] == s;
  }

  predicate Special(c: char)
  {
    c in {'\'', '\\', '\n', '\r'}
  }

  /** A string without the four special runes comes back unchanged. */
  lemma {:induction false} EscapePlain(s: string)
    requires forall i :: 0 <= i < |s| ==> !Special(s[i])
    ensures Escape(s) == s
  {
    if s != [] {
      EscapePlain(s[..|s| - 1]);
      assert s == s[..|s| - 1] + [s[|s| - 1]];
    }
  }

  /** Escaping never shortens, and the output holds no raw line break. */
  lemma {:induction false} EscapeShape(s: string)
    ensures |Escape(s)| >= |s|
    ensures forall i :: 0 <= i < |Escape(s)| ==> Escape(s)[i] != '\n' && Escape(s)[i] != '\r'
  {
    if s != [] {
      EscapeShape(s[..|s| - 1]);
      var prev := Escape(s[..|s| - 1]);
      var e := EscapeRune(s[|s| - 1]);
      assert Escape(s) == prev + e;
      forall i | 0 <= i < |prev + e| ensures (prev + e)[i] != '\n' && (prev + e)[i] != '\r' {
        if i >= |prev| {
          assert (prev + e)[i] == e[i - |prev|];
        }
      }
    }
  }

  /** Escaping distributes over concatenation. */
  lemma {:induction false} EscapeConcat(a: string, b: string)
    ensures Escape(a + b) == Escape(a) + Escape(b)
    decreases |b|
  {
    if b == [] {
      assert a + b == a;
    } else {
      var b' := b[..|b| - 1];
      assert a + b == (a + b') + [b[|b| - 1]];
      assert (a + b)[..|a + b| - 1] == a + b';
      EscapeConcat(a, b');
    }
  }

  /** Decodes the four backslash sequences; any other character, and a
      backslash before anything else, is copied. */
  function Unescape(s: string): string
    decreases |s|
  {
    if s == [] then []
    else if |s| >= 2 && s[0] == '\\' && s[1] in {'\'', '\\', 'n', 'r'} then
      [match s[1] case '\'' => '\'' case '\\' => '\\' case 'n' => '\n' case _ => '\r'] + Unescape(s[2..])
    else [s[0]] + Unescape(s[1..])
  }

  lemma UnescapeRune(c: char, rest: string)
    ensures Unescape(EscapeRune(c) + rest) == [c] + Unescape(rest)
  {
    var e := EscapeRune(c);
    if Special(c) {
      assert (e + rest)[2..] == rest;
    } else {
      assert (e + rest)[1..] == rest;
    }
  }

  /** Decoding the escapes gives the original string back. */
  lemma {:induction false} EscapeRoundTrip(s: string)
    ensures Unescape(Escape(s)) == s
    decreases |s|
  {
    if s != [] {
      EscapeConcat([s[0]], s[1..]);
      assert [s[0]] + s[1..] == s;
      assert Escape([s[0]]) == EscapeRune(s[0]) by {
        assert [s[0]][..0] == [];
      }
      UnescapeRune(s[0], Escape(s[1..]));
      EscapeRoundTrip(s[1..]);
    }
  }

  /** The mode word of `SendKey`, or the error for an unknown mode. */
  function KeyModeName(mode: int): (r: Result<string>)
    ensures r.Ok? <==> mode in {KeyPress, KeyHold, KeyRelease}
  {
    if mode == KeyPress then Ok("press")
    else if mode == KeyHold then Ok("hold")
    else if mode == KeyRelease then Ok("release")
    else Err("unsupported key mode: " + Decimal(mode))
  }

  /** `SendKey`: the injected script and the logged entry.  The key name
      is inserted as given, without escaping. */
  function SendKey(contextValid: bool, key: string, mode: int): (r: Result<(string, string)>)
    ensures !contextValid ==> r == Err(InvalidContext)
    ensures contextValid ==> (r.Ok? <==> KeyModeName(mode).Ok?)
  {
    if !contextValid then Err(InvalidContext)
    else match KeyModeName(mode)
      case Err(e) => Err(e)
      case Ok(name) => Ok(("keyboardEvent('" + name + "', '" + key + "');", "Key " + name + ": " + key))
  }

  /** The three key modes have three different words. */
  lemma KeyModesDistinct(m1: int, m2: int)
    requires KeyModeName(m1).Ok? && KeyModeName(m2).Ok? && m1 != m2
    ensures KeyModeName(m1).value != KeyModeName(m2).value
  {
    var a, b := KeyModeName(m1).value, KeyModeName(m2).value;
    assert |a| != |b|;
  }

  /** The `mouseEvent` call of a mouse mode: its event name and extra
      options, or None for an unknown mode. */
  function MouseEvent(mode: int): (r: Option<(string, string)>)
    ensures r.Some? <==> 0 <= mode <= 5
  {
    if mode == MouseClick then Some(("moveClick", ""))
    else if mode == MouseMobClick then Some(("moveClick", ", {checkMob: true}"))
    else if mode == MouseMove then Some(("move", ""))
    else if mode == MousePress then Some(("press", ""))
    else if mode == MouseHold then Some(("hold", ""))
    else if mode == MouseRelease then Some(("release", ""))
    else None
  }

  /** The six mouse modes map to six different calls. */
  lemma MouseModesDistinct(m1: int, m2: int)
    requires MouseEvent(m1).Some? && MouseEvent(m2).Some? && m1 != m2
    ensures MouseEvent(m1).value != MouseEvent(m2).value
  {
    var a, b := MouseEvent(m1).value, MouseEvent(m2).value;
    if a.0 == b.0 {
      assert a.0[4] == 'C';
      assert a.1 != b.1;
    }
  }

  /** `Click`: the injected script and the logged entry; every mode but
      the mob click is logged as a plain click. */
  function Click(contextValid: bool, x: int, y: int, mode: int): (r: Result<(string, string)>)
    ensures !contextValid ==> r == Err(InvalidContext)
    ensures contextValid ==> (r.Ok? <==> 0 <= mode <= 5)
  {
    if !contextValid then Err(InvalidContext)
    else match MouseEvent(mode)
      case None => Err("unsupported mouse mode: " + Decimal(mode))
      case Some((name, options)) =>
        var logged := if mode == MouseMobClick then "mob-click" else "click";
        Ok(("mouseEvent('" + name + "', " + Decimal(x) + ", " + Decimal(y) + options + ");",
            "Mouse " + logged + ": (" + Decimal(x) + ", " + Decimal(y) + ")"))
  }

  /** `SendMessage`: the chat text is escaped inside the script, and the
      log keeps the raw text. */
  method SendMessage(contextValid: bool, text: string) returns (r: Result<(string, string)>)
    ensures !contextValid ==> r == Err(InvalidContext)
    ensures contextValid ==> r == Ok(("setInputChat('" + Escape(text) + "');", "Chat: " + text))
  {
    if !contextValid {
      return Err(InvalidContext);
    }
    var escaped := EscapeJavaScriptString(text);
    return Ok(("setInputChat('" + escaped + "');", "Chat: " + text));
  }

  /** `SendSlot`: bar index shown 1-based as an F-key. */
  function SendSlot(contextValid: bool, slotBarIndex: int, slotIndex: int): (r: Result<(string, string)>)
    ensures !contextValid <==> r.Err?
  {
    if !contextValid then Err(InvalidContext)
    else Ok(("sendSlot(" + Decimal(slotBarIndex) + ", " + Decimal(slotIndex) + ");",
             "Slot F" + Decimal(slotBarIndex + 1) + "-" + Decimal(slotIndex)))
  }
}
