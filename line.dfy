/**
 * The LINE message for one participant: the notification template with its
 * placeholders filled in, the amount line, and optionally a link to the
 * explanation page, joined by newlines; and the LINE share URL for it.
 *
 * Number formatting (toLocaleString) and URL encoding (encodeURIComponent)
 * are parameters: the model does not interpret them.
 */
module Line {
  import opened Wrappers

  const LineUrlPrefix: string := "https://line.me/R/msg/text/?"

  /** `pattern` occurs in `s`. */
  predicate Contains(s: string, pattern: string)
    decreases |s|
  {
    0 < |pattern| <= |s| && (s[..|pattern|] == pattern || Contains(s[1..], pattern))
  }

  predicate NoDollar(s: string)
  {
    '$' !in s
  }

  /**
   * s.replace(/pattern/g, replacement) for a literal pattern and a
   * replacement with no '$': every occurrence, scanning left to right and
   * resuming after each match, is replaced.
   */
  function ReplaceAll(s: string, pattern: string, replacement: string): (r: string)
    requires |pattern| > 0
    ensures !Contains(s, pattern) ==> r == s
    ensures replacement == pattern ==> r == s
    decreases |s|
  {
    if |s| < |pattern| then s
    else if s[..|pattern|] == pattern then
      var rest := ReplaceAll(s[|pattern|..], pattern, replacement);
      assert s == s[..|pattern|] + s[|pattern|..];
      replacement + rest
    else
      var rest := ReplaceAll(s[1..], pattern, replacement);
      assert s == [s[0]] + s[1..];
      [s[0]] + rest
  }

  /** An occurrence of `pattern` starts at position i of `s`. */
  predicate MatchAt(s: string, pattern: string, i: nat)
  {
    i + |pattern| <= |s| && s[i..i + |pattern|] == pattern
  }

  /** No occurrence of `pattern` in `a + pattern + b` starts inside `a`. */
  predicate FirstMatchAt(a: string, pattern: string, b: string)
  {
    forall i :: 0 <= i < |a| ==> !MatchAt(a + pattern + b, pattern, i)
  }

  /**
   * Where the first occurrence is, the replacement goes: the text before it is
   * kept, the occurrence becomes the replacement, and the scan resumes after it.
   * With the unchanged-when-absent clause of ReplaceAll this fixes every result.
   */
  lemma {:induction false} ReplaceFirst(a: string, pattern: string, b: string, replacement: string)
    requires |pattern| > 0 && FirstMatchAt(a, pattern, b)
    ensures ReplaceAll(a + pattern + b, pattern, replacement) == a + replacement + ReplaceAll(b, pattern, replacement)
    decreases |a|
  {
    var s := a + pattern + b;
    if a == [] {
      assert s == pattern + b;
      assert s[..|pattern|] == pattern && s[|pattern|..] == b;
    } else {
      FirstMatchShift(a, pattern, b);
      ReplaceFirst(a[1..], pattern, b, replacement);
      var tail := ReplaceAll(b, pattern, replacement);
      assert ReplaceAll(s, pattern, replacement) == [a[0]] + (a[1..] + replacement + tail);
      ConsConcat(a, replacement, tail);
    }
  }

  lemma ConsConcat(a: string, x: string, y: string)
    requires a != []
    ensures [a[0]] + (a[1..] + x + y) == a + x + y
  {
    assert a == [a[0]] + a[1..];
  }

  /** Dropping the first character of `a` keeps the first occurrence first. */
  lemma FirstMatchShift(a: string, pattern: string, b: string)
    requires |pattern| > 0 && a != [] && FirstMatchAt(a, pattern, b)
    ensures FirstMatchAt(a[1..], pattern, b)
    ensures (a + pattern + b)[..|pattern|] != pattern
    ensures (a + pattern + b)[1..] == a[1..] + pattern + b
    ensures (a + pattern + b)[0] == a[0]
  {
    var s := a + pattern + b;
    var t := a[1..] + pattern + b;
    assert !MatchAt(s, pattern, 0);
    assert s[1..] == t;
    forall i | 0 <= i < |a[1..]|
      ensures !MatchAt(t, pattern, i)
    {
      assert !MatchAt(s, pattern, i + 1);
      assert t[i..i + |pattern|] == s[i + 1..i + 1 + |pattern|];
    }
  }

  /** How many occurrences the left-to-right scan of ReplaceAll replaces. */
  function Matches(s: string, pattern: string): nat
    requires |pattern| > 0
    decreases |s|
  {
    if |s| < |pattern| then 0
    else if s[..|pattern|] == pattern then 1 + Matches(s[|pattern|..], pattern)
    else Matches(s[1..], pattern)
  }

  /** The scan replaces something exactly when the pattern occurs. */
  lemma {:induction false} MatchesZero(s: string, pattern: string)
    requires |pattern| > 0
    ensures Matches(s, pattern) == 0 <==> !Contains(s, pattern)
    decreases |s|
  {
    if |s| >= |pattern| && s[..|pattern|] != pattern {
      MatchesZero(s[1..], pattern);
    }
  }

  /** Each replacement changes the length by |replacement| - |pattern|. */
  lemma {:induction false} ReplaceAllLength(s: string, pattern: string, replacement: string)
    requires |pattern| > 0
    ensures |ReplaceAll(s, pattern, replacement)| == |s| + Matches(s, pattern) * (|replacement| - |pattern|)
    decreases |s|
  {
    if |s| >= |pattern| {
      if s[..|pattern|] == pattern {
        var rest := s[|pattern|..];
        ReplaceAllLength(rest, pattern, replacement);
        assert ReplaceAll(s, pattern, replacement) == replacement + ReplaceAll(rest, pattern, replacement);
        assert Matches(s, pattern) == 1 + Matches(rest, pattern);
        MulSucc(Matches(rest, pattern), |replacement| - |pattern|);
      } else {
        ReplaceAllLength(s[1..], pattern, replacement);
        assert ReplaceAll(s, pattern, replacement) == [s[0]] + ReplaceAll(s[1..], pattern, replacement);
      }
    }
  }

  lemma MulSucc(m: int, k: int)
    ensures (1 + m) * k == k + m * k
  {
  }

  /**
   * The template with {name}, {amount}, {title} and {total} replaced, in that
   * order, each replacement applied to the result of the one before.
   */
  function Substitute(template: string, name: string, amountText: string, titleText: string, totalText: string): (r: string)
    requires NoDollar(name) && NoDollar(amountText) && NoDollar(titleText) && NoDollar(totalText)
    ensures (!Contains(template, "{name}") && !Contains(template, "{amount}") &&
             !Contains(template, "{title}") && !Contains(template, "{total}")) ==> r == template
  {
    var named := ReplaceAll(template, "{name}", name);
    var amounted := ReplaceAll(named, "{amount}", amountText);
    var titled := ReplaceAll(amounted, "{title}", titleText);
    ReplaceAll(titled, "{total}", totalText)
  }

  /** A template is used when it is present and not empty (JavaScript truthiness). */
  predicate HasTemplate(messageTemplate: Option<string>)
  {
    messageTemplate.Some? && messageTemplate.value != ""
  }

  /** The mandatory amount line. */
  function AmountLine(participantName: string, amountText: string): string
  {
    "\n" + participantName + "さんの負担額: " + amountText + "円"
  }

  /** The line linking to the explanation page. */
  function DetailsLine(baseUrl: string): string
  {
    "\n計算方法: " + baseUrl + "/how"
  }

  function TotalLength(parts: seq<string>): nat
  {
    if parts == [] then 0 else |parts[0]| + TotalLength(parts[1..])
  }

  /** Array.prototype.join: the parts with `sep` between each two neighbours. */
  function Join(parts: seq<string>, sep: string): (r: string)
    ensures |parts| == 1 ==> r == parts[0]
    ensures |parts| > 0 ==> |r| == TotalLength(parts) + (|parts| - 1) * |sep|
  {
    if |parts| == 0 then ""
    else if |parts| == 1 then parts[0]
    else parts[0] + sep + Join(parts[1..], sep)
  }

  /**
   * The lines buildLineMessage pushes, in order: the filled-in template when
   * there is one, the amount line, the details line when asked for.
   */
  function MessageLines(messageTemplate: Option<string>, participantName: string, shareAmount: int,
                        title: Option<string>, totalAmount: int, attachDetailsLink: bool, baseUrl: string,
                        formatAmount: int -> string): (r: seq<string>)
    requires HasTemplate(messageTemplate) ==>
      NoDollar(participantName) && NoDollar(formatAmount(shareAmount)) &&
      NoDollar(title.GetOr("")) && NoDollar(formatAmount(totalAmount))
    ensures |r| == 1 + (if HasTemplate(messageTemplate) then 1 else 0) + (if attachDetailsLink then 1 else 0)
    ensures HasTemplate(messageTemplate) ==>
      r[0] == Substitute(messageTemplate.value, participantName, formatAmount(shareAmount), title.GetOr(""), formatAmount(totalAmount))
    ensures r[if HasTemplate(messageTemplate) then 1 else 0] == AmountLine(participantName, formatAmount(shareAmount))
    ensures attachDetailsLink <==> r[|r| - 1] == DetailsLine(baseUrl)
  {
    var templateLines :=
      if HasTemplate(messageTemplate) then
        [Substitute(messageTemplate.value, participantName, formatAmount(shareAmount), title.GetOr(""), formatAmount(totalAmount))]
      else [];
    var linkLines := if attachDetailsLink then [DetailsLine(baseUrl)] else [];
    var r := templateLines + [AmountLine(participantName, formatAmount(shareAmount))] + linkLines;
    assert !attachDetailsLink ==> r[|r| - 1] != DetailsLine(baseUrl) by {
      if !attachDetailsLink {
        LastChar(participantName, formatAmount(shareAmount), baseUrl);
      }
    }
    r
  }

  /** The amount line ends in '円', the details line in 'w': they never coincide. */
  lemma LastChar(participantName: string, amountText: string, baseUrl: string)
    ensures AmountLine(participantName, amountText)[|AmountLine(participantName, amountText)| - 1] == '円'
    ensures DetailsLine(baseUrl)[|DetailsLine(baseUrl)| - 1] == 'w'
    ensures AmountLine(participantName, amountText) != DetailsLine(baseUrl)
  {
  }

  lemma JoinTwo(a: string, b: string, sep: string)
    ensures Join([a, b], sep) == a + sep + b
  {
    assert [a, b][1..] == [b];
  }

  lemma JoinThree(a: string, b: string, c: string, sep: string)
    ensures Join([a, b, c], sep) == a + sep + b + sep + c
  {
    assert [a, b, c][1..] == [b, c];
    JoinTwo(b, c, sep);
  }

  /**
   * buildLineMessage: push the filled-in template (when there is one), the
   * amount line and the details line (when asked for), then join with '\n'.
   */
  method BuildLineMessage(messageTemplate: Option<string>, participantName: string, shareAmount: int,
                          title: Option<string>, totalAmount: int, attachDetailsLink: bool, baseUrl: string,
                          formatAmount: int -> string)
    returns (message: string)
    requires HasTemplate(messageTemplate) ==>
      NoDollar(participantName) && NoDollar(formatAmount(shareAmount)) &&
      NoDollar(title.GetOr("")) && NoDollar(formatAmount(totalAmount))
    ensures message == Join(MessageLines(messageTemplate, participantName, shareAmount, title, totalAmount,
                                         attachDetailsLink, baseUrl, formatAmount), "\n")
    ensures message ==
      (if HasTemplate(messageTemplate)
       then Substitute(messageTemplate.value, participantName, formatAmount(shareAmount), title.GetOr(""), formatAmount(totalAmount)) + "\n"
       else "")
      + AmountLine(participantName, formatAmount(shareAmount))
      + (if attachDetailsLink then "\n" + DetailsLine(baseUrl) else "")
  {
    var lines: seq<string> := [];

    if HasTemplate(messageTemplate) {
      var replaced := Substitute(messageTemplate.value, participantName, formatAmount(shareAmount),
                                 title.GetOr(""), formatAmount(totalAmount));
      lines := lines + [replaced];
    }

    lines := lines + [AmountLine(participantName, formatAmount(shareAmount))];

    if attachDetailsLink {
      var howUrl := baseUrl + "/how";
      assert "\n計算方法: " + howUrl == DetailsLine(baseUrl);
      lines := lines + ["\n計算方法: " + howUrl];
    }

    assert lines == MessageLines(messageTemplate, participantName, shareAmount, title, totalAmount,
                                 attachDetailsLink, baseUrl, formatAmount);
    JoinedLines(messageTemplate, participantName, shareAmount, title, totalAmount, attachDetailsLink, baseUrl, formatAmount);
    message := Join(lines, "\n");
  }

  /** The joined lines spelled out: template and newline, amount line, newline and details line. */
  lemma JoinedLines(messageTemplate: Option<string>, participantName: string, shareAmount: int,
                    title: Option<string>, totalAmount: int, attachDetailsLink: bool, baseUrl: string,
                    formatAmount: int -> string)
    requires HasTemplate(messageTemplate) ==>
      NoDollar(participantName) && NoDollar(formatAmount(shareAmount)) &&
      NoDollar(title.GetOr("")) && NoDollar(formatAmount(totalAmount))
    ensures Join(MessageLines(messageTemplate, participantName, shareAmount, title, totalAmount,
                              attachDetailsLink, baseUrl, formatAmount), "\n") ==
      (if HasTemplate(messageTemplate)
       then Substitute(messageTemplate.value, participantName, formatAmount(shareAmount), title.GetOr(""), formatAmount(totalAmount)) + "\n"
       else "")
      + AmountLine(participantName, formatAmount(shareAmount))
      + (if attachDetailsLink then "\n" + DetailsLine(baseUrl) else "")
  {
    var lines := MessageLines(messageTemplate, participantName, shareAmount, title, totalAmount,
                              attachDetailsLink, baseUrl, formatAmount);
    var amountLine := AmountLine(participantName, formatAmount(shareAmount));
    if HasTemplate(messageTemplate) {
      var text := Substitute(messageTemplate.value, participantName, formatAmount(shareAmount), title.GetOr(""), formatAmount(totalAmount));
      if attachDetailsLink {
        assert lines == [text, amountLine, DetailsLine(baseUrl)];
        JoinThree(text, amountLine, DetailsLine(baseUrl), "\n");
        assert text + "\n" + amountLine + "\n" + DetailsLine(baseUrl) == (text + "\n") + amountLine + ("\n" + DetailsLine(baseUrl));
      } else {
        assert lines == [text, amountLine];
        JoinTwo(text, amountLine, "\n");
        assert text + "\n" + amountLine == (text + "\n") + amountLine + "";
      }
    } else if attachDetailsLink {
      assert lines == [amountLine, DetailsLine(baseUrl)];
      JoinTwo(amountLine, DetailsLine(baseUrl), "\n");
      assert amountLine + "\n" + DetailsLine(baseUrl) == "" + amountLine + ("\n" + DetailsLine(baseUrl));
    } else {
      assert lines == [amountLine];
      assert amountLine == "" + amountLine + "";
    }
  }

  /** generateLineUrl: the LINE share URL carrying the encoded message. */
  function GenerateLineUrl(message: string, encode: string -> string): (url: string)
    ensures |url| >= |LineUrlPrefix|
    ensures url[..|LineUrlPrefix|] == LineUrlPrefix
    ensures url[|LineUrlPrefix|..] == encode(message)
  {
    LineUrlPrefix + encode(message)
  }

  /** The message a LINE share URL carries, given the inverse of the encoding. */
  function MessageOfUrl(url: string, decode: string -> string): Option<string>
  {
    if |url| >= |LineUrlPrefix| && url[..|LineUrlPrefix|] == LineUrlPrefix
    then Some(decode(url[|LineUrlPrefix|..]))
    else None
  }

  /** With a decoding that undoes the encoding, the URL gives back its message. */
  lemma LineUrlRoundTrip(message: string, encode: string -> string, decode: string -> string)
    requires forall m :: decode(encode(m)) == m
    ensures MessageOfUrl(GenerateLineUrl(message, encode), decode) == Some(message)
  {
  }
}
