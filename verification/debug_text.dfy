/** Rust's `{:?}` rendering of a string: the text between double quotes with
    the quote, the backslash and the control characters `\0`, `\t`, `\r`,
    `\n` written as escapes. */
module DebugText {
  import opened Wrappers

  /** The escape letter of a character that `{:?}` escapes. */
  function EscapeLetter(c: char): Option<char> {
    match c
    case '"' => Some('"')
    case '\\' => Some('\\')
    case '\0' => Some('0')
    case '\t' => Some('t')
    case '\r' => Some('r')
    case '\n' => Some('n')
    case _ => None
  }

  /** The character an escape letter stands for. */
  function UnescapeLetter(l: char): Option<char> {
    match l
    case '"' => Some('"')
    case '\\' => Some('\\')
    case '0' => Some('\0')
    case 't' => Some('\t')
    case 'r' => Some('\r')
    case 'n' => Some('\n')
    case _ => None
  }

  /** One character as `{:?}` writes it. */
  function EscapeChar(c: char): string {
    var e := EscapeLetter(c);
    if e.Some? then ['\\', e.value] else [c]
  }

  function Escape(s: string): string
    decreases |s|
  {
    if |s| == 0 then [] else EscapeChar(s[0]) + Escape(s[1..])
  }

  /** `format!("{:?}", s)` for a string `s`. */
  function Quoted(s: string): string {
    "\"" + Escape(s) + "\""
  }

  /** Reads escaped text back: `None` on a dangling or unknown escape, or on a
      bare quote. */
  function Unescape(e: string): Option<string>
    decreases |e|
  {
    if |e| == 0 then Some([])
    else if e[0] == '\\' then
      if |e| == 1 then None
      else
        match (UnescapeLetter(e[1]), Unescape(e[2..]))
        case (Some(c), Some(rest)) => Some([c] + rest)
        case _ => None
    else if e[0] == '"' then None
    else
      match Unescape(e[1..])
      case Some(rest) => Some([e[0]] + rest)
      case None => None
  }

  /** Every quote in escaped text follows a backslash. */
  predicate QuotesEscaped(e: string) {
    forall i :: 0 <= i < |e| && e[i] == '"' ==> 0 < i && e[i - 1] == '\\'
  }

  lemma {:induction false} LetterRoundTrip(c: char)
    ensures EscapeLetter(c).Some? ==> UnescapeLetter(EscapeLetter(c).value) == Some(c)
    ensures EscapeLetter(c).None? ==> c != '"' && c != '\\'
  {
    match c
    case '"' =>
    case '\\' =>
    case '\0' =>
    case '\t' =>
    case '\r' =>
    case '\n' =>
    case _ =>
  }

  lemma {:induction false} EscapeRoundTrip(s: string)
    ensures Unescape(Escape(s)) == Some(s)
    decreases |s|
  {
    if |s| > 0 {
      EscapeRoundTrip(s[1..]);
      UnescapeCons(s[0], Escape(s[1..]));
      assert [s[0]] + s[1..] == s;
    }
  }

  /** Reading back one escaped character in front of more text. */
  lemma {:induction false} UnescapeCons(c: char, t: string)
    ensures Unescape(EscapeChar(c) + t)
      == (match Unescape(t) case Some(r) => Some([c] + r) case None => None)
  {
    LetterRoundTrip(c);
    var u := EscapeChar(c) + t;
    if EscapeLetter(c).Some? {
      assert u[0] == '\\' && u[1] == EscapeLetter(c).value && u[2..] == t;
    } else {
      assert u[0] == c && u[1..] == t;
    }
  }

  lemma {:induction false} EscapeKeepsQuotesEscaped(s: string)
    ensures QuotesEscaped(Escape(s))
    ensures |s| > 0 && EscapeLetter(s[0]).None? ==> |Escape(s)| > 0 && Escape(s)[0] == s[0]
    decreases |s|
  {
    if |s| > 0 {
      EscapeKeepsQuotesEscaped(s[1..]);
      var head := EscapeChar(s[0]);
      forall i | 0 <= i < |Escape(s)| && Escape(s)[i] == '"'
        ensures 0 < i && Escape(s)[i - 1] == '\\'
      {
        if i >= |head| {
          assert Escape(s)[i] == Escape(s[1..])[i - |head|];
          if i - |head| > 0 {
            assert Escape(s)[i - 1] == Escape(s[1..])[i - |head| - 1];
          }
        }
      }
    }
  }

  /** `{:?}` round-trips: the quoted text reads back as the string itself, and
      no bare quote inside it can be mistaken for the closing one. */
  lemma {:induction false} QuotedReadsBack(s: string)
    ensures |Quoted(s)| >= 2 && Quoted(s)[0] == '"' && Quoted(s)[|Quoted(s)| - 1] == '"'
    ensures Unescape(Quoted(s)[1..|Quoted(s)| - 1]) == Some(s)
    ensures QuotesEscaped(Quoted(s)[1..|Quoted(s)| - 1])
  {
    assert Quoted(s)[1..|Quoted(s)| - 1] == Escape(s);
    EscapeRoundTrip(s);
    EscapeKeepsQuotesEscaped(s);
  }
}
