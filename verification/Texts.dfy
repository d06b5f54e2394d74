/** Splitting and joining text at one character. */
module Texts {

  function Split(text: string, separator: char): (parts: seq<string>)
    ensures |parts| > 0
  {
    if text == "" then [""]
    else
      var rest := Split(text[1..], separator);
      if text[0] == separator then [""] + rest else [[text[0]] + rest[0]] + rest[1..]
  }

  function Join(parts: seq<string>, separator: char): string {
    if parts == [] then ""
    else if |parts| == 1 then parts[0]
    else parts[0] + [separator] + Join(parts[1..], separator)
  }

  ghost predicate Free(parts: seq<string>, c: char) {
    forall i :: 0 <= i < |parts| ==> c !in parts[i]
  }

  lemma {:induction false} SplitWhole(text: string, separator: char)
    requires separator !in text
    ensures Split(text, separator) == [text]
  {
    if text != "" {
      SplitWhole(text[1..], separator);
      assert [text[0]] + text[1..] == text;
    }
  }

  lemma {:induction false} SplitFirst(first: string, rest: string, separator: char)
    requires separator !in first
    ensures Split(first + [separator] + rest, separator) == [first] + Split(rest, separator)
  {
    var text := first + [separator] + rest;
    if first == "" {
      assert text[1..] == rest;
    } else {
      assert text[1..] == first[1..] + [separator] + rest;
      SplitFirst(first[1..], rest, separator);
      assert [first[0]] + first[1..] == first;
      assert ([first[1..]] + Split(rest, separator))[1..] == Split(rest, separator);
    }
  }

  // What was joined comes back, provided the separator is in no part.
  lemma {:induction false} SplitOfJoin(parts: seq<string>, separator: char)
    requires parts != [] && Free(parts, separator)
    ensures Split(Join(parts, separator), separator) == parts
  {
    if |parts| == 1 {
      SplitWhole(parts[0], separator);
    } else {
      SplitOfJoin(parts[1..], separator);
      SplitFirst(parts[0], Join(parts[1..], separator), separator);
    }
  }

  lemma {:induction false} SplitIsFree(text: string, separator: char)
    ensures Free(Split(text, separator), separator)
  {
    if text != "" {
      SplitIsFree(text[1..], separator);
    }
  }

  lemma {:induction false} JoinOfSplit(text: string, separator: char)
    ensures Join(Split(text, separator), separator) == text
  {
    if text != "" {
      var rest := Split(text[1..], separator);
      JoinOfSplit(text[1..], separator);
      if text[0] == separator {
        assert ([""] + rest)[1..] == rest;
      } else {
        var parts := [[text[0]] + rest[0]] + rest[1..];
        assert parts[1..] == rest[1..];
        assert Join(parts, separator) == [text[0]] + Join(rest, separator);
      }
    }
  }

  // Splitting goes through a separator, wherever it is.
  lemma {:induction false} SplitThrough(left: string, right: string, separator: char)
    ensures Split(left + [separator] + right, separator) == Split(left, separator) + Split(right, separator)
  {
    var text := left + [separator] + right;
    if left == "" {
      assert text[1..] == right;
    } else {
      assert text[1..] == left[1..] + [separator] + right;
      SplitThrough(left[1..], right, separator);
    }
  }
}
