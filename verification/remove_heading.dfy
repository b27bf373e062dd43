/**
 * The `removeHeading` template directive: drops a leading `h1`, `h2` or
 * `h3` heading, up to its first closing tag, from a piece of text.
 */
module RemoveHeading {
  import opened Wrappers
  import opened JavaLang

  /** The headings tried, in order. */
  const HeadingTags: seq<string> := ["h1", "h2", "h3"]

  function Open(tag: string): string { "<" + tag + ">" }
  function Close(tag: string): string { "</" + tag + ">" }

  /** The tag of the first heading, in the order given, that opens the text and is closed in it. */
  function FirstApplicable(data: string, tags: seq<string>): (i: int)
    ensures -1 <= i < |tags|
    ensures i >= 0 ==> StartsWith(data, Open(tags[i])) && IndexOf(data, Close(tags[i])) != -1
    ensures forall k :: 0 <= k < |tags| && (i < 0 || k < i) ==>
              !(StartsWith(data, Open(tags[k])) && IndexOf(data, Close(tags[k])) != -1)
  {
    if |tags| == 0 then -1
    else if StartsWith(data, Open(tags[0])) && IndexOf(data, Close(tags[0])) != -1 then 0
    else
      var i := FirstApplicable(data, tags[1..]);
      if i < 0 then -1 else i + 1
  }

  /**
   * `remove`: for the first tag in order that opens the text and whose
   * closing tag occurs in it, the text after the first closing tag;
   * otherwise the text unchanged.
   */
  function Remove(data: string, tags: seq<string>): (r: string)
    ensures EndsWith(data, r)
  {
    var i := FirstApplicable(data, tags);
    if i < 0 then
      assert data[|data| - |data|..] == data;
      data
    else
      var index := IndexOf(data, Close(tags[i]));
      assert data[|data| - |data[index + 3 + |tags[i]|..]|..] == data[index + 3 + |tags[i]|..];
      data[index + 3 + |tags[i]|..]
  }

  /** The result is the text after the first closing tag of the applicable heading, or the text itself. */
  lemma RemoveSpec(data: string, tags: seq<string>)
    ensures var i := FirstApplicable(data, tags);
            var r := Remove(data, tags);
            (i < 0 ==> r == data) &&
            (i >= 0 ==>
               var index := IndexOf(data, Close(tags[i]));
               data == data[..index] + Close(tags[i]) + r &&
               forall k :: 0 <= k < index ==> !OccursAt(data, Close(tags[i]), k))
  {
    var i := FirstApplicable(data, tags);
    if i >= 0 {
      var index := IndexOf(data, Close(tags[i]));
      var c := Close(tags[i]);
      assert data[index..index + |c|] == c;
      assert data == data[..index] + data[index..index + |c|] + data[index + |c|..];
    }
  }

  /** `doTag`: nothing is written for a null argument. */
  function DoTag(argument: Option<string>): (written: string)
    ensures argument.None? ==> written == ""
    ensures argument.Some? ==> EndsWith(argument.value, written)
  {
    if argument.None? then "" else Remove(argument.value, HeadingTags)
  }

  /** A leading `h1` heading is dropped, and what follows is kept. */
  lemma RemovesLeadingH1(title: string, body: string)
    requires '<' !in title
    ensures Remove("<h1>" + title + "</h1>" + body, HeadingTags) == body
  {
    var data := "<h1>" + title + "</h1>" + body;
    var c := Close("h1");
    assert StartsWith(data, Open("h1")) by { assert data[..4] == Open("h1"); }
    var at := 4 + |title|;
    assert OccursAt(data, c, at) by { assert data[at..at + 5] == c; }
    forall k | 0 <= k < at
      ensures !OccursAt(data, c, k)
    {
      if k == 0 {
        assert data[1] == 'h';
      } else if k < 4 {
        assert data[k] != '<';
      } else {
        assert data[k] == title[k - 4];
      }
    }
    var index := IndexOf(data, c);
    assert index == at;
    assert FirstApplicable(data, HeadingTags) == 0;
    assert data[at + 5..] == body;
  }

  /** Text that does not open with a heading comes back unchanged. */
  lemma NoHeadingUnchanged(data: string)
    requires |data| == 0 || data[0] != '<'
    ensures Remove(data, HeadingTags) == data
  {
  }
}
