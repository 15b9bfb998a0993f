/** The click option parser `parse_comma_list`, identical in all three
    generator scripts. */
module Cli {
  import opened Text

  /** What click hands the parser: the default list, or the text typed on the
      command line. */
  datatype Arg = ListArg(items: seq<string>) | TextArg(text: string)

  /** The comma-separated fields of `text`, untrimmed (`str(s).split(',')`). */
  function Fields(text: string): (r: seq<string>)
    ensures Join(r, ",") == text
    ensures forall k :: 0 <= k < |r| ==> !Contains(r[k], ",")
  {
    SplitOnSpec(text, ",");
    SplitOn(text, ",")
  }

  /** A list passes through untouched; text becomes one stripped item per
      comma-separated field, so it always yields at least one item. */
  function ParseCommaList(arg: Arg): (r: seq<string>)
    ensures arg.ListArg? ==> r == arg.items
    ensures arg.TextArg? ==> |r| == CountChar(arg.text, ',') + 1 == |Fields(arg.text)|
    ensures arg.TextArg? ==> forall k :: 0 <= k < |r| ==>
      r[k] == Strip(Fields(arg.text)[k]) && (r[k] != [] ==> !IsSpace(r[k][0]) && !IsSpace(r[k][|r[k]| - 1]))
  {
    match arg
    case ListArg(items) => items
    case TextArg(text) =>
      var fields := Fields(text);
      SplitOnCharCount(text, ',');
      seq(|fields|, k requires 0 <= k < |fields| => Strip(fields[k]))
  }

  /** Each item is its field with surrounding whitespace cut off. */
  lemma ParseCommaListTrims(text: string)
    ensures forall k :: 0 <= k < |ParseCommaList(TextArg(text))| ==>
      Trimmed(Fields(text)[k], ParseCommaList(TextArg(text))[k], IsSpace)
  {
    var r := ParseCommaList(TextArg(text));
    forall k | 0 <= k < |r| ensures Trimmed(Fields(text)[k], r[k], IsSpace) {
      StripWithSpec(Fields(text)[k], IsSpace);
    }
  }
}
