// How the global FASTBuild generator quotes values and escapes names,
// literals and paths before writing them into a .bff file. Each encoding is
// given with its decoder and a round trip.

module GlobalEncoding {
  import opened Text

  /* ---------------- Quote ---------------- */

  /** Quote: the string between two quotations, or "" for the empty string. */
  function Quote(str: string, quotation: string): (r: string)
    ensures r == "" <==> str == ""
    ensures str != "" ==> |r| == |str| + 2 * |quotation|
  {
    if str == "" then "" else quotation + str + quotation
  }

  /** Strips one quotation from each end. */
  function Unquote(text: string, quotation: string): string
  {
    if |text| < 2 * |quotation| then "" else text[|quotation|..|text| - |quotation|]
  }

  lemma QuoteRoundTrip(str: string, quotation: string)
    ensures Unquote(Quote(str, quotation), quotation) == str
  {
    if str != "" {
      var r := Quote(str, quotation);
      assert r[|quotation|..|r| - |quotation|] == str;
    }
  }

  /* ---------------- EncodeRuleName ---------------- */

  /** isalnum in the C locale. */
  predicate IsAlnum(c: char)
  {
    'a' <= c <= 'z' || 'A' <= c <= 'Z' || '0' <= c <= '9'
  }

  /** The characters a Ninja-style rule name may hold: [a-zA-Z0-9_.-]. */
  predicate RuleNameChar(c: char)
  {
    IsAlnum(c) || c == '_' || c == '-' || c == '.'
  }

  /** Characters of the 7-bit range, the domain this model encodes. */
  predicate Ascii(s: string)
  {
    forall i :: 0 <= i < |s| ==> s[i] as int < 128
  }

  const HexDigits: string := "0123456789abcdef"

  /** printf("%02x") of a 7-bit character code. */
  function Hex2(c: char): (r: string)
    requires c as int < 128
    ensures |r| == 2 && IsAlnum(r[0]) && IsAlnum(r[1])
  {
    var n := c as int;
    [HexDigits[n / 16], HexDigits[n % 16]]
  }

  /** The value of a lower-case hexadecimal digit (0 for anything else). */
  function HexValue(d: char): (r: int)
    ensures 0 <= r < 16
  {
    if '0' <= d <= '9' then d as int - '0' as int
    else if 'a' <= d <= 'f' then d as int - 'a' as int + 10
    else 0
  }

  lemma HexDigitValues()
    ensures forall k :: 0 <= k < 16 ==> HexValue(HexDigits[k]) == k
  {
  }

  /** One character of EncodeRuleName: kept, or ".xx" in hexadecimal. */
  function EncodeRuleChar(c: char): (r: string)
    requires c as int < 128
  {
    if IsAlnum(c) || c == '_' || c == '-' then [c] else "." + Hex2(c)
  }

  /** EncodeRuleName, character by character. */
  function EncodeRule(name: string): (r: string)
    requires Ascii(name)
    ensures forall i :: 0 <= i < |r| ==> RuleNameChar(r[i])
  {
    if name == [] then []
    else EncodeRuleChar(name[0]) + EncodeRule(name[1..])
  }

  /** Undoes EncodeRule: ".xx" becomes the character with code 0xxx. */
  function DecodeRule(t: string): string
  {
    if t == [] then []
    else if t[0] == '.' && |t| >= 3 then
      [(HexValue(t[1]) * 16 + HexValue(t[2])) as char] + DecodeRule(t[3..])
    else [t[0]] + DecodeRule(t[1..])
  }

  lemma DecodeRuleChar(c: char, rest: string)
    requires c as int < 128
    ensures DecodeRule(EncodeRuleChar(c) + rest) == [c] + DecodeRule(rest)
  {
    var t := EncodeRuleChar(c) + rest;
    if !(IsAlnum(c) || c == '_' || c == '-') {
      HexDigitValues();
      var n := c as int;
      assert t[1] == HexDigits[n / 16] && t[2] == HexDigits[n % 16];
      assert (n / 16) * 16 + n % 16 == n;
      assert t[3..] == rest;
    } else {
      assert t[1..] == rest;
    }
  }

  /** Decoding an encoded rule name gives the name back. */
  lemma {:induction false} RuleNameRoundTrip(name: string)
    requires Ascii(name)
    ensures DecodeRule(EncodeRule(name)) == name
  {
    if name != [] {
      RuleNameRoundTrip(name[1..]);
      DecodeRuleChar(name[0], EncodeRule(name[1..]));
      assert name == [name[0]] + name[1..];
    }
  }

  lemma {:induction false} EncodeRuleSnoc(name: string, c: char)
    requires Ascii(name) && c as int < 128
    ensures EncodeRule(name + [c]) == EncodeRule(name) + EncodeRuleChar(c)
  {
    if name == [] {
      assert name + [c] == [c];
    } else {
      assert (name + [c])[1..] == name[1..] + [c];
      EncodeRuleSnoc(name[1..], c);
    }
  }

  /**
   * EncodeRuleName: the accumulator loop; the result holds only rule-name
   * characters and decodes back to the name.
   */
  method EncodeRuleName(name: string) returns (encoded: string)
    requires Ascii(name)
    ensures encoded == EncodeRule(name)
    ensures DecodeRule(encoded) == name
    ensures forall i :: 0 <= i < |encoded| ==> RuleNameChar(encoded[i])
  {
    encoded := "";
    var i := 0;
    while i < |name|
      invariant i <= |name|
      invariant encoded == EncodeRule(name[..i])
    {
      TakeSnoc(name, i);
      EncodeRuleSnoc(name[..i], name[i]);
      encoded := encoded + EncodeRuleChar(name[i]);
      i := i + 1;
    }
    assert name[..i] == name;
    RuleNameRoundTrip(name);
  }

  /* ---------------- EncodeLiteral / EncodePath ---------------- */

  /** Whether the generator is multi-config, and its CMAKE_CFG_INTDIR. */
  datatype LiteralMode = LiteralMode(multiConfig: bool, cfgIntDir: string)

  /** Every character of `specials` is preceded by a '$'. */
  function Escape(s: string, specials: set<char>): (r: string)
    ensures |r| >= |s|
  {
    if s == [] then []
    else (if s[0] in specials then ['$', s[0]] else [s[0]]) + Escape(s[1..], specials)
  }

  /** Drops the '$' in front of every escaped character. */
  function Unescape(t: string): string
  {
    if t == [] then []
    else if t[0] == '$' && |t| >= 2 then [t[1]] + Unescape(t[2..])
    else [t[0]] + Unescape(t[1..])
  }

  /** Unescaping undoes escaping whenever '$' itself is escaped. */
  lemma {:induction false} EscapeRoundTrip(s: string, specials: set<char>)
    requires '$' in specials
    ensures Unescape(Escape(s, specials)) == s
  {
    if s != [] {
      EscapeRoundTrip(s[1..], specials);
      var rest := Escape(s[1..], specials);
      if s[0] in specials {
        assert (['$', s[0]] + rest)[2..] == rest;
      } else {
        assert ([s[0]] + rest)[1..] == rest;
      }
      assert s == [s[0]] + s[1..];
    }
  }

  /** A string without special characters is its own escape. */
  lemma {:induction false} EscapePlain(s: string, specials: set<char>)
    requires forall i :: 0 <= i < |s| ==> s[i] !in specials
    ensures Escape(s, specials) == s
  {
    if s != [] {
      EscapePlain(s[1..], specials);
      assert s == [s[0]] + s[1..];
    }
  }

  /** Replacing '$' by "$$" escapes '$'. */
  lemma {:induction false} EscapeDollar(s: string)
    ensures MapChar(s, '$', "$$") == Escape(s, {'$'})
  {
    if s != [] {
      EscapeDollar(s[1..]);
    }
  }

  /** Replacing one more character c by "$c" widens the escaped set. */
  lemma {:induction false} EscapeOneMore(s: string, specials: set<char>, c: char)
    requires c != '$' && c !in specials
    ensures MapChar(Escape(s, specials), c, ['$', c]) == Escape(s, specials + {c})
  {
    if s != [] {
      EscapeOneMore(s[1..], specials, c);
      var head := if s[0] in specials then ['$', s[0]] else [s[0]];
      MapCharAppend(head, Escape(s[1..], specials), c, ['$', c]);
      if s[0] in specials {
        assert MapChar(head, c, ['$', c]) == head by {
          assert head == ['$'] + [s[0]];
          MapCharAppend(['$'], [s[0]], c, ['$', c]);
        }
      } else {
        assert [s[0]][1..] == [];
      }
    }
  }

  /** EncodeLiteral: '$' doubled, newlines escaped, and in multi-config "$" + CFGIntDir kept. */
  function EncodeLiteral(lit: string, mode: LiteralMode): (r: string)
  {
    var escaped := ReplaceAll(ReplaceAll(lit, "$", "$$"), "\n", "$\n");
    if mode.multiConfig then ReplaceAll(escaped, "$" + mode.cfgIntDir, mode.cfgIntDir) else escaped
  }

  /** The two replacements escape exactly '$' and newline. */
  lemma LiteralEscape(lit: string)
    ensures ReplaceAll(ReplaceAll(lit, "$", "$$"), "\n", "$\n") == Escape(lit, {'$', '\n'})
  {
    ReplaceOneChar(lit, '$', "$$");
    EscapeDollar(lit);
    ReplaceOneChar(Escape(lit, {'$'}), '\n', "$\n");
    EscapeOneMore(lit, {'$'}, '\n');
    assert {'$'} + {'\n'} == {'$', '\n'};
  }

  /** Single-config literals decode back to themselves. */
  lemma LiteralRoundTrip(lit: string, mode: LiteralMode)
    requires !mode.multiConfig
    ensures EncodeLiteral(lit, mode) == Escape(lit, {'$', '\n'})
    ensures Unescape(EncodeLiteral(lit, mode)) == lit
  {
    LiteralEscape(lit);
    EscapeRoundTrip(lit, {'$', '\n'});
  }

  /**
   * In multi-config a reference to the configuration directory written as
   * "$" + CFGIntDir survives the escaping with a single '$'.
   */
  lemma LiteralKeepsIntDir(mode: LiteralMode)
    requires mode.multiConfig && mode.cfgIntDir != ""
    requires '$' !in mode.cfgIntDir && '\n' !in mode.cfgIntDir
    ensures EncodeLiteral("$" + mode.cfgIntDir, mode) == "$" + mode.cfgIntDir
  {
    var dir := mode.cfgIntDir;
    var lit := "$" + dir;
    LiteralEscape(lit);
    EscapedIntDir(dir);
    ReplaceIntDir(dir);
  }

  /** Escaping "$" + dir doubles only the leading '$'. */
  lemma EscapedIntDir(dir: string)
    requires '$' !in dir && '\n' !in dir
    ensures Escape("$" + dir, {'$', '\n'}) == "$$" + dir
  {
    var lit := "$" + dir;
    EscapePlain(dir, {'$', '\n'});
    assert lit[1..] == dir;
  }

  /** Replacing "$" + dir by dir in "$$" + dir leaves "$" + dir. */
  lemma ReplaceIntDir(dir: string)
    requires dir != [] && '$' !in dir
    ensures ReplaceAll("$$" + dir, "$" + dir, dir) == "$" + dir
  {
    var s := "$$" + dir;
    var pat := "$" + dir;
    assert s[..|pat|] != pat by {
      assert s[..|pat|][1] == '$' && pat[1] == dir[0];
    }
    assert s[1..] == pat;
    assert pat[..|pat|] == pat && pat[|pat|..] == [];
    assert ReplaceAll(pat, pat, dir) == dir + ReplaceAll([], pat, dir);
  }

  /** EncodePath off Windows: the literal encoding, then ' ' and ':' escaped. */
  function EncodePath(path: string, mode: LiteralMode): (r: string)
  {
    ReplaceAll(ReplaceAll(EncodeLiteral(path, mode), " ", "$ "), ":", "$:")
  }

  /** Single-config paths escape '$', newline, ' ' and ':' and decode back. */
  lemma PathRoundTrip(path: string, mode: LiteralMode)
    requires !mode.multiConfig
    ensures EncodePath(path, mode) == Escape(path, {'$', '\n', ' ', ':'})
    ensures Unescape(EncodePath(path, mode)) == path
  {
    LiteralRoundTrip(path, mode);
    var lit := EncodeLiteral(path, mode);
    ReplaceOneChar(lit, ' ', "$ ");
    EscapeOneMore(path, {'$', '\n'}, ' ');
    assert {'$', '\n'} + {' '} == {'$', '\n', ' '};
    ReplaceOneChar(Escape(path, {'$', '\n', ' '}), ':', "$:");
    EscapeOneMore(path, {'$', '\n', ' '}, ':');
    assert {'$', '\n', ' '} + {':'} == {'$', '\n', ' ', ':'};
    EscapeRoundTrip(path, {'$', '\n', ' ', ':'});
  }
}
