/**
 * `WarehouseResponseDto`: the result the service hands back from a move, a
 * status comment or a delete — a status code and a list of messages.
 */
module ResponseDto {
  const OK: int := 200
  const ERROR: int := 500

  /** The message every fresh response starts with. */
  const AllWell: string := "Все в норме"

  /** `implode($sep, $parts)`: the parts joined by `sep`. */
  function Implode(sep: char, parts: seq<string>): string
  {
    if parts == [] then ""
    else if |parts| == 1 then parts[0]
    else parts[0] + [sep] + Implode(sep, parts[1..])
  }

  /** The text up to the first `sep` of `s`, or all of it. */
  function Head(sep: char, s: string): (h: string)
    ensures |h| <= |s| && h == s[..|h|]
    ensures sep !in h
    ensures |h| < |s| ==> s[|h|] == sep
  {
    if s == [] || s[0] == sep then "" else [s[0]] + Head(sep, s[1..])
  }

  /** `explode($sep, $s)`: the pieces between the separators. */
  function Explode(sep: char, s: string): (parts: seq<string>)
    ensures |parts| >= 1
    decreases |s|
  {
    var h := Head(sep, s);
    if |h| == |s| then [s] else [h] + Explode(sep, s[|h| + 1..])
  }

  /** The response object. */
  class WarehouseResponse {
    var code: int
    var messages: seq<string>

    /** The first message is the one the constructor adds, so the list is
        never empty. */
    predicate Valid()
      reads this
    {
      messages != [] && messages[0] == AllWell
    }

    /** A fresh response is OK and says that all is well. */
    constructor()
      ensures Valid()
      ensures code == OK && messages == [AllWell]
    {
      code := OK;
      messages := [AllWell];
    }

    function GetCode(): int
      reads this
    {
      code
    }

    /** Appends one message at the end; the code stays. */
    method AddMessage(message: string)
      modifies this
      ensures messages == old(messages) + [message] && code == old(code)
      ensures old(Valid()) ==> Valid()
    {
      messages := messages + [message];
    }

    /** Replaces the code; the messages stay. */
    method SetCode(c: int)
      modifies this
      ensures code == c && messages == old(messages)
      ensures old(Valid()) ==> Valid()
    {
      code := c;
    }

    /** The messages in the order they were added. */
    function GetMessages(): (m: seq<string>)
      reads this
      ensures Valid() ==> |m| >= 1 && m[0] == AllWell
    {
      messages
    }

    /** The messages joined with ','. */
    function GetMessageText(): (text: string)
      reads this
      ensures forall m | m in messages :: |m| <= |text|
      ensures messages != [] ==> text[..|messages[0]|] == messages[0]
    {
      MessagesInText(messages);
      Implode(',', messages)
    }
  }

  /** Each message is part of the joined text. */
  lemma {:induction false} MessagesInText(parts: seq<string>)
    ensures parts != [] ==> |parts[0]| <= |Implode(',', parts)| && Implode(',', parts)[..|parts[0]|] == parts[0]
    ensures forall m | m in parts :: |m| <= |Implode(',', parts)|
  {
    if |parts| > 1 {
      MessagesInText(parts[1..]);
      forall m | m in parts
        ensures |m| <= |Implode(',', parts)|
      {
        if m != parts[0] {
          assert m in parts[1..];
        }
      }
    }
  }

  /** Messages without a comma can be read back from the joined text: the
      text loses nothing. */
  lemma {:induction false} ExplodeImplode(parts: seq<string>)
    requires parts != []
    requires forall m | m in parts :: ',' !in m
    ensures Explode(',', Implode(',', parts)) == parts
  {
    if |parts| > 1 {
      var rest := Implode(',', parts[1..]);
      var s := parts[0] + [','] + rest;
      HeadOfJoined(parts[0], rest);
      assert s[|parts[0]| + 1..] == rest;
      ExplodeImplode(parts[1..]);
    } else {
      HeadWhole(parts[0]);
    }
  }

  lemma HeadOfJoined(first: string, rest: string)
    requires ',' !in first
    ensures Head(',', first + [','] + rest) == first
  {
    var s := first + [','] + rest;
    var h := Head(',', s);
    assert forall i | 0 <= i < |first| :: s[i] == first[i];
    assert s[|first|] == ',';
  }

  lemma HeadWhole(s: string)
    requires ',' !in s
    ensures Head(',', s) == s
  {
  }
}
