/** Settings that are lists in one environment variable, separated by commas. */
module Settings {
  import opened Texts

  // What str.strip removes.
  predicate IsSpace(c: char) {
    || '\U{09}' <= c <= '\U{0d}' || '\U{1c}' <= c <= ' ' || c == '\U{85}' || c == '\U{a0}' || c == '\U{1680}'
    || '\U{2000}' <= c <= '\U{200a}' || c == '\U{2028}' || c == '\U{2029}' || c == '\U{202f}' || c == '\U{205f}'
    || c == '\U{3000}'
  }

  function StripLeft(text: string): string {
    if text != "" && IsSpace(text[0]) then StripLeft(text[1..]) else text
  }

  function StripRight(text: string): string {
    if text != "" && IsSpace(text[|text| - 1]) then StripRight(text[..|text| - 1]) else text
  }

  function Strip(text: string): string {
    StripRight(StripLeft(text))
  }

  ghost predicate Trimmed(text: string) {
    text != "" ==> !IsSpace(text[0]) && !IsSpace(text[|text| - 1])
  }

  function CleanParts(parts: seq<string>): seq<string> {
    if parts == [] then []
    else (if Strip(parts[0]) != "" then [Strip(parts[0])] else []) + CleanParts(parts[1..])
  }

  // _split_csv, on a string.
  function SplitCsv(text: string): seq<string> {
    CleanParts(Split(text, ','))
  }

  // An item that a setting can hold.
  ghost predicate IsItem(item: string) {
    item != "" && Trimmed(item) && ',' !in item
  }

  lemma {:induction false} StripLeftSpec(text: string)
    ensures var r := StripLeft(text);
      && (r != "" ==> !IsSpace(r[0]))
      && |r| <= |text| && r == text[|text| - |r|..]
  {
    if text != "" && IsSpace(text[0]) {
      StripLeftSpec(text[1..]);
    }
  }

  lemma {:induction false} StripRightSpec(text: string)
    ensures var r := StripRight(text);
      && (r != "" ==> !IsSpace(r[|r| - 1]))
      && |r| <= |text| && r == text[..|r|]
  {
    if text != "" && IsSpace(text[|text| - 1]) {
      StripRightSpec(text[..|text| - 1]);
    }
  }

  lemma StripSpec(text: string)
    ensures Trimmed(Strip(text))
    ensures forall c :: c in Strip(text) ==> c in text
    ensures Trimmed(text) ==> Strip(text) == text
  {
    StripLeftSpec(text);
    StripRightSpec(StripLeft(text));
  }

  lemma {:induction false} CleanPartsAreItems(parts: seq<string>)
    requires Free(parts, ',')
    ensures forall i :: 0 <= i < |CleanParts(parts)| ==> IsItem(CleanParts(parts)[i])
  {
    if parts != [] {
      StripSpec(parts[0]);
      CleanPartsAreItems(parts[1..]);
    }
  }

  lemma {:induction false} ItemsStayClean(items: seq<string>)
    requires forall i :: 0 <= i < |items| ==> IsItem(items[i])
    ensures CleanParts(items) == items
  {
    if items != [] {
      StripSpec(items[0]);
      ItemsStayClean(items[1..]);
    }
  }

  // Whatever the variable holds, every item is non-empty, trimmed and free of commas.
  lemma CsvItemsAreClean(text: string)
    ensures forall i :: 0 <= i < |SplitCsv(text)| ==> IsItem(SplitCsv(text)[i])
  {
    SplitIsFree(text, ',');
    CleanPartsAreItems(Split(text, ','));
  }

  // Every list of such items can be written to a variable and read back.
  lemma CsvRoundTrip(items: seq<string>)
    requires forall i :: 0 <= i < |items| ==> IsItem(items[i])
    ensures SplitCsv(Join(items, ',')) == items
  {
    if items == [] {
      assert CleanParts([""]) == [] + CleanParts([""][1..]);
    } else {
      SplitOfJoin(items, ',');
      ItemsStayClean(items);
    }
  }

  lemma {:induction false} CleanPartsOfBoth(left: seq<string>, right: seq<string>)
    ensures CleanParts(left + right) == CleanParts(left) + CleanParts(right)
  {
    if left == [] {
      assert left + right == right;
    } else {
      assert (left + right)[1..] == left[1..] + right;
      CleanPartsOfBoth(left[1..], right);
    }
  }

  // A comma separates what is before it from what is after it.
  lemma CsvSplitsAtCommas(left: string, right: string)
    ensures SplitCsv(left + "," + right) == SplitCsv(left) + SplitCsv(right)
  {
    SplitThrough(left, right, ',');
    CleanPartsOfBoth(Split(left, ','), Split(right, ','));
  }

  ghost predicate Blank(text: string) {
    forall i :: 0 <= i < |text| ==> IsSpace(text[i])
  }

  lemma {:induction false} StripLeftOfBlank(left: string, rest: string)
    requires Blank(left) && (rest != "" ==> !IsSpace(rest[0]))
    ensures StripLeft(left + rest) == rest
  {
    if left == "" {
      assert left + rest == rest;
    } else {
      assert (left + rest)[1..] == left[1..] + rest;
      StripLeftOfBlank(left[1..], rest);
    }
  }

  lemma {:induction false} StripRightOfBlank(rest: string, right: string)
    requires Blank(right) && (rest != "" ==> !IsSpace(rest[|rest| - 1]))
    ensures StripRight(rest + right) == rest
  {
    if right == "" {
      assert rest + right == rest;
    } else {
      var text := rest + right;
      assert text[..|text| - 1] == rest + right[..|right| - 1];
      StripRightOfBlank(rest, right[..|right| - 1]);
    }
  }

  // Without a comma there is at most one item: what is left between the spaces at both ends.
  lemma CsvTrimsItem(left: string, item: string, right: string)
    requires Blank(left) && Blank(right) && (item == "" || IsItem(item))
    ensures SplitCsv(left + item + right) == if item == "" then [] else [item]
  {
    var text := left + item + right;
    assert ',' !in text;
    SplitWhole(text, ',');
    assert text == left + (item + right);
    if item == "" {
      assert Blank(text) && text == text + "";
      StripLeftOfBlank(text, "");
    } else {
      assert !IsSpace((item + right)[0]);
      StripLeftOfBlank(left, item + right);
      StripRightOfBlank(item, right);
    }
    assert Strip(text) == item;
    var kept: seq<string> := if item == "" then [] else [item];
    assert [text][1..] == [] && kept + [] == kept;
    assert CleanParts([text]) == kept + CleanParts([text][1..]);
  }

  // Which of the characters up to 127 count as spaces.
  lemma AsciiSpaces(c: char)
    requires c as int < 128
    ensures IsSpace(c) <==> 9 <= c as int <= 13 || 28 <= c as int <= 32
  {
  }

  lemma CsvNormalises(text: string)
    ensures SplitCsv(Join(SplitCsv(text), ',')) == SplitCsv(text)
  {
    CsvItemsAreClean(text);
    CsvRoundTrip(SplitCsv(text));
  }
}
