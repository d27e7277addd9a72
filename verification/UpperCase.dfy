/**
 Upper-casing as `toUpperCase` does it, as far as texts of plain letters, digits and signs can tell: every
 character outside them whose upper case contains a plain letter is listed, and for all others, whose upper
 case contains none, the character itself stands.
 */
module UpperCase {
  function UpperOf(c: char): string {
    if 'a' <= c <= 'z' then [(c as int - 32) as char]
    else match c
      case '\U{00DF}' => "SS"
      case '\U{0131}' => "I"
      case '\U{0149}' => "\U{02BC}N"
      case '\U{017F}' => "S"
      case '\U{01F0}' => "J\U{030C}"
      case '\U{1E96}' => "H\U{0331}"
      case '\U{1E97}' => "T\U{0308}"
      case '\U{1E98}' => "W\U{030A}"
      case '\U{1E99}' => "Y\U{030A}"
      case '\U{1E9A}' => "A\U{02BE}"
      case '\U{FB00}' => "FF"
      case '\U{FB01}' => "FI"
      case '\U{FB02}' => "FL"
      case '\U{FB03}' => "FFI"
      case '\U{FB04}' => "FFL"
      case '\U{FB05}' => "ST"
      case '\U{FB06}' => "ST"
      case _ => [c]
  }

  function ToUpper(s: string): string {
    if s == "" then "" else UpperOf(s[0]) + ToUpper(s[1..])
  }

  lemma {:induction false} UpperOfConcat(a: string, b: string)
    ensures ToUpper(a + b) == ToUpper(a) + ToUpper(b)
  {
    hide UpperOf;
    if a == "" {
      assert a + b == b;
    } else {
      UpperOfConcat(a[1..], b);
      assert (a + b)[0] == a[0] && (a + b)[1..] == a[1..] + b;
      Associative(UpperOf(a[0]), ToUpper(a[1..]), ToUpper(b));
    }
  }

  lemma Associative(x: string, y: string, z: string)
    ensures (x + y) + z == x + (y + z)
  {
  }

  /** Upper-casing twice is upper-casing once. */
  lemma {:induction false} UpperTwice(s: string)
    ensures ToUpper(ToUpper(s)) == ToUpper(s)
  {
    hide UpperOf;
    if s != "" {
      UpperTwice(s[1..]);
      UpperOfConcat(UpperOf(s[0]), ToUpper(s[1..]));
      UpperOfUpper(s[0]);
    }
  }

  lemma {:induction false} UpperStays(s: string)
    requires forall i :: 0 <= i < |s| ==> UpperOf(s[i]) == [s[i]]
    ensures ToUpper(s) == s
  {
    hide UpperOf;
    if s != "" {
      UpperStays(s[1..]);
    }
  }

  lemma UpperOfUpper(c: char)
    ensures ToUpper(UpperOf(c)) == UpperOf(c)
  {
    UpperStays(UpperOf(c));
  }

  /** Plain letters go to their capitals and all other plain characters stay, one for one. */
  lemma {:induction false} PlainUpper(s: string, i: nat)
    requires i < |s| && forall k :: 0 <= k < |s| ==> s[k] as int < 128
    ensures |ToUpper(s)| == |s|
    ensures ToUpper(s)[i] as int == if 97 <= s[i] as int <= 122 then s[i] as int - 97 + 65 else s[i] as int
  {
    if |s| > 1 {
      PlainUpper(s[1..], if i == 0 then 0 else i - 1);
    }
  }

  /** The other characters that turn into plain capitals, and what they turn into. */
  lemma SpecialUpper(c: char)
    requires c as int >= 128
    ensures (exists k :: 0 <= k < |UpperOf(c)| && (UpperOf(c)[k] as int) < 128) <==>
      c as int in {0xDF, 0x131, 0x149, 0x17F, 0x1F0, 0x1E96, 0x1E97, 0x1E98, 0x1E99, 0x1E9A,
                   0xFB00, 0xFB01, 0xFB02, 0xFB03, 0xFB04, 0xFB05, 0xFB06}
  {
    var i := c as int;
    if i in {0xDF, 0x131, 0x149, 0x17F, 0x1F0, 0x1E96, 0x1E97, 0x1E98, 0x1E99, 0x1E9A,
             0xFB00, 0xFB01, 0xFB02, 0xFB03, 0xFB04, 0xFB05, 0xFB06} {
      assert (UpperOf(c)[if c == '\U{0149}' then 1 else 0] as int) < 128;
    }
  }

  lemma SpecialTexts()
    ensures UpperOf('\U{00DF}') == "SS" && UpperOf('\U{0131}') == "I" && UpperOf('\U{017F}') == "S"
    ensures UpperOf('\U{FB00}') == "F" + "F" && UpperOf('\U{FB01}') == "F" + "I" && UpperOf('\U{FB02}') == "F" + "L"
    ensures UpperOf('\U{FB03}') == UpperOf('\U{FB00}') + "I" && UpperOf('\U{FB04}') == UpperOf('\U{FB00}') + "L"
    ensures UpperOf('\U{FB05}') == "S" + "T" && UpperOf('\U{FB06}') == UpperOf('\U{FB05}')
    ensures UpperOf('\U{0149}')[1] == 'N' && UpperOf('\U{01F0}')[0] == 'J' && UpperOf('\U{1E96}')[0] == 'H'
    ensures UpperOf('\U{1E97}')[0] == 'T' && UpperOf('\U{1E98}')[0] == 'W' && UpperOf('\U{1E99}')[0] == 'Y'
    ensures UpperOf('\U{1E9A}')[0] == 'A'
  {
  }
}
