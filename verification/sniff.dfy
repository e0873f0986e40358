/**
 How a post's text is classified for display, shared by the two renderers:
 the search for an image file extension (`/\.(ext1|ext2|...)/i`, optionally
 anchored by `(\?|$)`) and the precedence image, then link, then plain text.
 */
module Sniff {
  import opened Text

  /**
   `.ext` occurs in the lower-cased text `lowered` at index `i`; when
   `anchored`, it is followed by `?` or by the end of the text.
   */
  predicate ExtensionAt(lowered: string, i: int, ext: string, anchored: bool) {
    OccursAt(lowered, "." + ext, i) &&
    (!anchored || i + 1 + |ext| == |lowered| || lowered[i + 1 + |ext|] == '?')
  }

  /**
   No match starts at `i` when the text there is not a dot followed by the
   extension's first letter, or when an anchored match would be followed by
   something other than `?`.
   */
  lemma NoExtensionAt(lowered: string, i: int, ext: string, anchored: bool)
    requires |ext| > 0
    requires || i < 0
             || i + 1 + |ext| > |lowered|
             || lowered[i] != '.'
             || lowered[i + 1] != ext[0]
             || (anchored && i + 1 + |ext| != |lowered| && lowered[i + 1 + |ext|] != '?')
    ensures !ExtensionAt(lowered, i, ext, anchored)
  {
    var pat := "." + ext;
    if 0 <= i && i + |pat| <= |lowered| {
      var w := lowered[i..i + |pat|];
      assert w[0] == lowered[i] && w[1] == lowered[i + 1];
      assert pat[0] == '.' && pat[1] == ext[0];
    }
  }

  /** Some extension of `exts` occurs somewhere in `lowered`. */
  ghost predicate HasExtension(lowered: string, exts: seq<string>, anchored: bool) {
    exists i, k :: 0 <= k < |exts| && ExtensionAt(lowered, i, exts[k], anchored)
  }

  /** Tries the alternatives `exts[k..]` at index `i`. */
  function AnyExtensionAt(lowered: string, i: int, exts: seq<string>, anchored: bool, k: nat): (b: bool)
    requires k <= |exts|
    ensures b <==> exists j :: k <= j < |exts| && ExtensionAt(lowered, i, exts[j], anchored)
    decreases |exts| - k
  {
    if k == |exts| then false
    else ExtensionAt(lowered, i, exts[k], anchored) || AnyExtensionAt(lowered, i, exts, anchored, k + 1)
  }

  /** Tries every start index from `from` on. */
  function ScanFrom(lowered: string, exts: seq<string>, anchored: bool, from: nat): (b: bool)
    requires from <= |lowered|
    ensures b <==> exists i, k :: from <= i && 0 <= k < |exts| && ExtensionAt(lowered, i, exts[k], anchored)
    decreases |lowered| - from
  {
    if AnyExtensionAt(lowered, from, exts, anchored, 0) then true
    else if from == |lowered| then false
    else ScanFrom(lowered, exts, anchored, from + 1)
  }

  /** The regular expression search: true exactly when some extension occurs. */
  function FindsExtension(lowered: string, exts: seq<string>, anchored: bool): (b: bool)
    ensures b <==> HasExtension(lowered, exts, anchored)
  {
    ScanFrom(lowered, exts, anchored, 0)
  }

  /** What a post is displayed as; every alternative carries the post text unchanged. */
  datatype Content = Image(src: string) | Link(href: string) | Plain(text: string)

  /** An image wins over a link, and a link (the text mentions `http`) over plain text. */
  function Classify(isImage: bool, text: string): (c: Content)
    ensures c.Image? <==> isImage
    ensures c.Link? <==> !isImage && Contains(text, "http")
    ensures c.Plain? <==> !isImage && !Contains(text, "http")
    ensures c == Image(text) || c == Link(text) || c == Plain(text)
  {
    if isImage then Image(text)
    else if Includes(text, "http") then Link(text)
    else Plain(text)
  }
}
