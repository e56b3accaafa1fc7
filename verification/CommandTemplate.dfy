/** Rendering a command template (commands/profile_commands.rs).

    `[p#3]` stands for the third argument. The placeholders are found by the
    regular expression `\[p#(\d+)\]`, replaced from left to right, once. */
module CommandTemplate {
  import opened Wrappers

  const MAX_USIZE: nat := 0xFFFF_FFFF_FFFF_FFFF

  datatype Segment = Literal(c: char) | Placeholder(digits: string)

  predicate IsAsciiDigit(c: char) {
    '0' <= c <= '9'
  }

  /** `\d` also matches the decimal digits of other scripts. */
  predicate IsDigit(others: set<char>, c: char) {
    IsAsciiDigit(c) || (c in others && c != ']')
  }

  function DigitRun(others: set<char>, s: string): (n: nat)
    ensures n <= |s|
    ensures forall k :: 0 <= k < n ==> IsDigit(others, s[k])
    ensures n < |s| ==> !IsDigit(others, s[n])
  {
    if s == [] || !IsDigit(others, s[0]) then 0 else 1 + DigitRun(others, s[1..])
  }

  /** The length of the placeholder the text starts with, or zero. */
  function PlaceholderLength(others: set<char>, s: string): (n: nat)
    ensures n <= |s|
    ensures n > 0 ==> n >= 5
  {
    if |s| >= 3 && s[..3] == "[p#" then
      var run := DigitRun(others, s[3..]);
      if run > 0 && 3 + run < |s| && s[3 + run] == ']' then run + 4 else 0
    else 0
  }

  function Parse(others: set<char>, s: string): seq<Segment> {
    var n := PlaceholderLength(others, s);
    if s == [] then []
    else if n > 0 then [Placeholder(s[3..n - 1])] + Parse(others, s[n..])
    else [Literal(s[0])] + Parse(others, s[1..])
  }

  // ----- the value of a placeholder

  function Value(digits: string): nat
    requires forall k :: 0 <= k < |digits| ==> IsAsciiDigit(digits[k])
  {
    if digits == [] then 0
    else
      var last := digits[|digits| - 1];
      assert IsAsciiDigit(last);
      10 * Value(digits[..|digits| - 1]) + (last as int - '0' as int)
  }

  /** `parse::<usize>`: ASCII digits only, and no overflow. */
  function ParseUsize(digits: string): Option<nat> {
    if forall k :: 0 <= k < |digits| ==> IsAsciiDigit(digits[k])
    then if Value(digits) <= MAX_USIZE then Some(Value(digits)) else None
    else None
  }

  function Argument(digits: string, args: seq<string>): string {
    var index := ParseUsize(digits);
    if index.Some? && 1 <= index.value <= |args| then args[index.value - 1] else ""
  }

  function Rendered(segment: Segment, args: seq<string>): string {
    match segment
    case Literal(c) => [c]
    case Placeholder(digits) => Argument(digits, args)
  }

  function Substitute(segments: seq<Segment>, args: seq<string>): string {
    if segments == [] then [] else Rendered(segments[0], args) + Substitute(segments[1..], args)
  }

  /** One step of the scan: what is written for the head of the text, and how much
      of the text it takes. */
  function Head(others: set<char>, s: string): (Segment, nat)
    requires s != []
  {
    var n := PlaceholderLength(others, s);
    if n > 0 then (Placeholder(s[3..n - 1]), n) else (Literal(s[0]), 1)
  }

  lemma ParseStep(others: set<char>, s: string)
    requires s != []
    ensures var (head, n) := Head(others, s);
            0 < n <= |s| && Parse(others, s) == [head] + Parse(others, s[n..])
  {
  }

  lemma RenderStep(others: set<char>, s: string, args: seq<string>)
    requires s != []
    ensures var (head, n) := Head(others, s);
            0 < n <= |s|
            && Substitute(Parse(others, s), args) == Rendered(head, args) + Substitute(Parse(others, s[n..]), args)
  {
  }

  lemma Unfold(head: Segment, tail: seq<Segment>, args: seq<string>)
    ensures Substitute([head] + tail, args) == Rendered(head, args) + Substitute(tail, args)
  {
  }

  /** Scans the template once and copies arguments without looking at them. */
  method RenderCommandTemplate(others: set<char>, template: string, args: seq<string>) returns (rendered: string)
    ensures rendered == Substitute(Parse(others, template), args)
  {
    rendered := [];
    var rest := template;
    while rest != []
      invariant Substitute(Parse(others, template), args) == rendered + Substitute(Parse(others, rest), args)
      decreases |rest|
    {
      RenderStep(others, rest, args);
      var (head, n) := Head(others, rest);
      rendered := rendered + Rendered(head, args);
      rest := rest[n..];
    }
  }

  // ----- parsing and printing

  function Written(segment: Segment): string {
    match segment
    case Literal(c) => [c]
    case Placeholder(digits) => "[p#" + digits + "]"
  }

  function Print(segments: seq<Segment>): string {
    if segments == [] then [] else Written(segments[0]) + Print(segments[1..])
  }

  lemma PlaceholderText(others: set<char>, s: string)
    requires PlaceholderLength(others, s) > 0
    ensures var n := PlaceholderLength(others, s); s == Written(Placeholder(s[3..n - 1])) + s[n..]
  {
  }

  /** Printing the segments gives the template back. */
  lemma {:induction false} PrintOfParse(others: set<char>, s: string)
    ensures Print(Parse(others, s)) == s
    decreases |s|
  {
    if s != [] {
      var n := PlaceholderLength(others, s);
      if n > 0 {
        PrintOfParse(others, s[n..]);
        PlaceholderText(others, s);
        PrintUnfold(Placeholder(s[3..n - 1]), Parse(others, s[n..]));
      } else {
        PrintOfParse(others, s[1..]);
        PrintUnfold(Literal(s[0]), Parse(others, s[1..]));
      }
    }
  }

  lemma PrintUnfold(head: Segment, tail: seq<Segment>)
    ensures Print([head] + tail) == Written(head) + Print(tail)
  {
  }

  /** Every placeholder has digits only, and no literal character is the start of
      a placeholder in the text that follows. */
  predicate IsLeftmost(others: set<char>, segments: seq<Segment>)
    decreases segments
  {
    segments == [] ||
    ((match segments[0]
      case Literal(_) => PlaceholderLength(others, Print(segments)) == 0
      case Placeholder(digits) => digits != "" && forall k :: 0 <= k < |digits| ==> IsDigit(others, digits[k]))
     && IsLeftmost(others, segments[1..]))
  }

  lemma {:induction false} DigitRunIs(others: set<char>, digits: string, rest: string)
    requires forall k :: 0 <= k < |digits| ==> IsDigit(others, digits[k])
    requires rest != [] ==> !IsDigit(others, rest[0])
    ensures DigitRun(others, digits + rest) == |digits|
  {
    if digits == [] {
      assert digits + rest == rest;
    } else {
      DigitRunIs(others, digits[1..], rest);
      assert (digits + rest)[1..] == digits[1..] + rest;
    }
  }

  lemma WrittenIsRecognised(others: set<char>, digits: string, rest: string)
    requires digits != "" && forall k :: 0 <= k < |digits| ==> IsDigit(others, digits[k])
    ensures var s := Written(Placeholder(digits)) + rest;
            PlaceholderLength(others, s) == |digits| + 4 && s[3..|digits| + 3] == digits && s[|digits| + 4..] == rest
  {
    var s := Written(Placeholder(digits)) + rest;
    assert s[..3] == "[p#";
    assert s[3..] == digits + ("]" + rest);
    assert ("]" + rest)[0] == ']';
    DigitRunIs(others, digits, "]" + rest);
    assert s[3 + |digits|] == ']';
  }

  lemma HeadOfPrint(others: set<char>, head: Segment, rest: string)
    requires match head
             case Literal(c) => PlaceholderLength(others, [c] + rest) == 0
             case Placeholder(digits) => digits != "" && forall k :: 0 <= k < |digits| ==> IsDigit(others, digits[k])
    ensures Head(others, Written(head) + rest) == (head, |Written(head)|)
    ensures (Written(head) + rest)[|Written(head)|..] == rest
  {
    if head.Placeholder? {
      WrittenIsRecognised(others, head.digits, rest);
    }
  }

  /** The segments of a template are the only leftmost reading of it: parsing what
      such segments print gives them back. */
  lemma {:induction false} ParseOfPrint(others: set<char>, segments: seq<Segment>)
    requires IsLeftmost(others, segments)
    ensures Parse(others, Print(segments)) == segments
    decreases segments
  {
    if segments != [] {
      var head, tail := segments[0], segments[1..];
      ParseOfPrint(others, tail);
      assert segments == [head] + tail;
      PrintUnfold(head, tail);
      HeadOfPrint(others, head, Print(tail));
      assert Print(segments) == Written(head) + Print(tail);
      assert |Written(head)| > 0;
      ParseStep(others, Written(head) + Print(tail));
    }
  }

  lemma {:induction false} ParseIsLeftmost(others: set<char>, s: string)
    ensures IsLeftmost(others, Parse(others, s))
    decreases |s|
  {
    if s != [] {
      var n := PlaceholderLength(others, s);
      PrintOfParse(others, s);
      if n > 0 {
        ParseIsLeftmost(others, s[n..]);
        var digits := s[3..n - 1];
        assert forall k :: 0 <= k < |digits| ==> digits[k] == s[3..][k];
        assert Parse(others, s)[1..] == Parse(others, s[n..]);
      } else {
        ParseIsLeftmost(others, s[1..]);
        assert Parse(others, s)[1..] == Parse(others, s[1..]);
      }
    }
  }

  // ----- what rendering promises

  /** A template is rendered by substituting once into its one leftmost reading. */
  lemma RenderIsSubstitution(others: set<char>, template: string, segments: seq<Segment>, args: seq<string>)
    requires IsLeftmost(others, segments) && Print(segments) == template
    ensures Substitute(Parse(others, template), args) == Substitute(segments, args)
  {
    ParseOfPrint(others, segments);
  }

  lemma {:induction false} SubstituteSum(a: seq<Segment>, b: seq<Segment>, args: seq<string>)
    ensures Substitute(a + b, args) == Substitute(a, args) + Substitute(b, args)
    decreases a
  {
    if a == [] {
      assert a + b == b;
    } else {
      assert a + b == [a[0]] + (a[1..] + b);
      Unfold(a[0], a[1..] + b, args);
      SubstituteSum(a[1..], b, args);
    }
  }

  lemma {:induction false} PrintSum(a: seq<Segment>, b: seq<Segment>)
    ensures Print(a + b) == Print(a) + Print(b)
    decreases a
  {
    if a == [] {
      assert a + b == b;
    } else {
      assert a + b == [a[0]] + (a[1..] + b);
      PrintUnfold(a[0], a[1..] + b);
      PrintSum(a[1..], b);
    }
  }

  lemma {:induction false} RestIsLeftmost(others: set<char>, segments: seq<Segment>, k: nat)
    requires IsLeftmost(others, segments) && k <= |segments|
    ensures IsLeftmost(others, segments[k..])
    decreases k
  {
    if k == 0 {
      assert segments[0..] == segments;
    } else {
      RestIsLeftmost(others, segments[1..], k - 1);
      assert segments[1..][k - 1..] == segments[k..];
    }
  }

  lemma SumsAssociate(a: string, b: string, c: string)
    ensures a + (b + c) == a + b + c
  {
  }

  lemma PrintAround(segments: seq<Segment>, k: nat)
    requires k < |segments|
    ensures Print(segments) == Print(segments[..k]) + Written(segments[k]) + Print(segments[k + 1..])
  {
    var front, tail := segments[..k], segments[k + 1..];
    assert segments == front + ([segments[k]] + tail);
    PrintSum(front, [segments[k]] + tail);
    PrintUnfold(segments[k], tail);
    SumsAssociate(Print(front), Written(segments[k]), Print(tail));
  }

  lemma SubstituteAround(segments: seq<Segment>, k: nat, args: seq<string>)
    requires k < |segments|
    ensures Substitute(segments, args)
            == Substitute(segments[..k], args) + Rendered(segments[k], args) + Substitute(segments[k + 1..], args)
  {
    var front, tail := segments[..k], segments[k + 1..];
    assert segments == front + ([segments[k]] + tail);
    SubstituteSum(front, [segments[k]] + tail, args);
    Unfold(segments[k], tail, args);
    SumsAssociate(Substitute(front, args), Rendered(segments[k], args), Substitute(tail, args));
  }

  /** An argument is copied as it is, even when it looks like a placeholder: at any
      placeholder of any reading, what is written before it and after it does not
      depend on the text of its argument, and the text after it is rendered as the
      template it is on its own. */
  lemma ArgumentsAreNotRescanned(others: set<char>, segments: seq<Segment>, k: nat, args: seq<string>)
    requires IsLeftmost(others, segments) && k < |segments| && segments[k].Placeholder?
    ensures var before, after := Print(segments[..k]), Print(segments[k + 1..]);
            && Print(segments) == before + Written(segments[k]) + after
            && Substitute(Parse(others, Print(segments)), args)
               == Substitute(segments[..k], args) + Argument(segments[k].digits, args) + Substitute(Parse(others, after), args)
  {
    PrintAround(segments, k);
    SubstituteAround(segments, k, args);
    ParseOfPrint(others, segments);
    RestIsLeftmost(others, segments, k + 1);
    ParseOfPrint(others, segments[k + 1..]);
  }

  /** So it is at every placeholder of every template. */
  lemma EveryPlaceholderIsCopied(others: set<char>, template: string, k: nat, args: seq<string>)
    requires k < |Parse(others, template)| && Parse(others, template)[k].Placeholder?
    ensures var segments := Parse(others, template);
            var before, after := Print(segments[..k]), Print(segments[k + 1..]);
            && template == before + Written(segments[k]) + after
            && Substitute(segments, args)
               == Substitute(segments[..k], args) + Argument(segments[k].digits, args) + Substitute(Parse(others, after), args)
  {
    ParseIsLeftmost(others, template);
    PrintOfParse(others, template);
    ArgumentsAreNotRescanned(others, Parse(others, template), k, args);
  }

  /** Nowhere in the template does a placeholder start. */
  predicate HasNoPlaceholder(others: set<char>, s: string) {
    forall i :: 0 <= i < |s| ==> PlaceholderLength(others, s[i..]) == 0
  }

  /** Such a template is rendered as it is, whatever the arguments. */
  lemma {:induction false} NoPlaceholderNoChange(others: set<char>, s: string, args: seq<string>)
    requires HasNoPlaceholder(others, s)
    ensures Substitute(Parse(others, s), args) == s
    decreases |s|
  {
    if s != [] {
      assert s[0..] == s;
      forall i | 0 <= i < |s[1..]| ensures PlaceholderLength(others, s[1..][i..]) == 0 {
        assert s[1..][i..] == s[i + 1..];
      }
      NoPlaceholderNoChange(others, s[1..], args);
      Unfold(Literal(s[0]), Parse(others, s[1..]), args);
    }
  }

  /** Index zero, an index out of range, one that overflows and one in digits of
      another script render empty; any other stands for its argument. */
  lemma ArgumentIff(digits: string, args: seq<string>)
    requires |args| <= MAX_USIZE
    ensures Argument(digits, args)
            == if (forall k :: 0 <= k < |digits| ==> IsAsciiDigit(digits[k])) && 1 <= Value(digits) <= |args|
               then args[Value(digits) - 1] else ""
  {
  }
}
