/**
 The server-side page renderer exported by `app.js`: it turns a page of
 posts into markup and fills the three placeholders of the page template.
 The template file's contents are a parameter (`template`).
 */
module Render {
  import opened Text
  import opened Sniff
  import opened Feed
  import Client

  /** Five extensions, matched anywhere in the text (no anchor). */
  const ImageExtensions: seq<string> := ["jpeg", "jpg", "gif", "png", "webp"]

  /** The image test of `app.js`: ignoring ASCII case, a `.` and one of five extensions, anywhere. */
  ghost predicate IsImage(text: string) {
    exists i, k :: 0 <= k < |ImageExtensions| && ExtensionAt(Lower(text), i, ImageExtensions[k], false)
  }

  function DetectImage(text: string): (b: bool)
    ensures b <==> IsImage(text)
  {
    FindsExtension(Lower(text), ImageExtensions, false)
  }

  /** How `app.js` displays a post's text. */
  function PostContent(text: string): (c: Content)
    ensures c == Image(text) <==> IsImage(text)
    ensures c == Link(text) <==> !IsImage(text) && Contains(text, "http")
    ensures c == Plain(text) <==> !IsImage(text) && !Contains(text, "http")
  {
    Classify(DetectImage(text), text)
  }

  const AnchorOpen: string := "<a href=\""
  const ImageMiddle: string := "\" target=\"_blank\">" + "<img src=\""
  const ImageClose: string := "\" loading=\"lazy\"></a>"
  const LinkMiddle: string := "\" target=\"_blank\">"
  const LinkClose: string := "</a>"

  /** The markup of a post's content: an image inside a link, a link, or the text itself. */
  function ContentHtml(c: Content): string {
    match c
    case Image(src) => AnchorOpen + src + ImageMiddle + src + ImageClose
    case Link(href) => AnchorOpen + href + LinkMiddle + href + LinkClose
    case Plain(text) => text
  }

  const ItemOpen: string :=
    "\n" + "            " + "<div class=\"item\">"
    + "\n" + "                " + "<div class=\"subject\">"
    + "\n" + "                    " + "<div class=\"content\">"
  const ItemMiddle: string := "</div>" + "\n" + "                    " + "<div class=\"date\">"
  const ItemClose: string := "</div>" + "\n" + "                " + "</div>" + "\n" + "            " + "</div>"

  /** The markup of one post. */
  function ItemHtml(post: Post): string {
    ItemOpen + ContentHtml(PostContent(post.text)) + ItemMiddle + post.timestamp + ItemClose
  }

  /** `posts.map(...).join("")`. */
  function ItemsHtml(posts: seq<Post>): (r: string)
    ensures r == "" <==> posts == []
  {
    if |posts| == 0 then "" else ItemHtml(posts[0]) + ItemsHtml(posts[1..])
  }

  /** Rendering keeps the posts in their order, one item each: it distributes over concatenation. */
  lemma {:induction false} ItemsHtmlAppend(a: seq<Post>, b: seq<Post>)
    ensures ItemsHtml(a + b) == ItemsHtml(a) + ItemsHtml(b)
    decreases |a|
  {
    if |a| == 0 {
      assert a + b == b;
    } else {
      assert (a + b)[0] == a[0];
      assert (a + b)[1..] == a[1..] + b;
      ItemsHtmlAppend(a[1..], b);
      assert ItemsHtml(a + b) == ItemHtml(a[0]) + ItemsHtml(a[1..] + b);
    }
  }

  const FormOpen: string := "\n" + "        " + "<form id=\"postForm\">"
  const FormInput: string :=
    "\n" + "            " + "<input type=\"text\" " + "name=\"input\" " + "id=\"postInput\" "
  const FormPlaceholder: string := "placeholder=\"" + "What's on your mind?" + "\" required />"
  const FormButton: string := "\n" + "            " + "<button type=\"submit\">" + "Share</button>"
  const FormClose: string := "\n" + "        " + "</form>" + "\n" + "    "
  const FormHtml: string := FormOpen + FormInput + FormPlaceholder + FormButton + FormClose

  /** The post form, present only for an editor. */
  function Form(isEdit: bool): (r: string)
    ensures r != "" <==> isEdit
  {
    if isEdit then FormHtml else ""
  }

  lemma FormIsPlain(isEdit: bool)
    ensures NoBrace(Form(isEdit)) && NoDollar(Form(isEdit))
  {
    FormMarkupIsPlain();
  }

  /** A link target `/?key=...&page=...`. */
  datatype Href = Href(key: string, page: int)

  /** The pieces of the archive bar, in document order. */
  datatype Fragment = OlderLink(href: Href) | Spacer | NewerLink(href: Href)

  /** The archive bar as the handler assembles it. */
  function ArchiveParts(key: string, hasOlder: bool, hasNewer: bool, page: int): (parts: seq<Fragment>)
    ensures parts == [] <==> !hasOlder && !hasNewer
    ensures forall h :: OlderLink(h) in parts <==> hasOlder && h == Href(key, page + 1)
    ensures forall h :: NewerLink(h) in parts <==> hasNewer && h == Href(key, page - 1)
    ensures forall i, j :: 0 <= i < |parts| && 0 <= j < |parts| && parts[i].OlderLink? && !parts[j].OlderLink? ==> i < j
    ensures forall i, j :: 0 <= i < |parts| && 0 <= j < |parts| && !parts[i].NewerLink? && parts[j].NewerLink? ==> i < j
    ensures parts != [] ==> Spacer in parts
    ensures parts != [] ==> |parts| == (if hasOlder then 1 else 0) + 1 + (if hasNewer then 1 else 0)
  {
    if hasOlder || hasNewer then
      (if hasOlder then [OlderLink(Href(key, page + 1))] else [])
      + [Spacer]
      + (if hasNewer then [NewerLink(Href(key, page - 1))] else [])
    else []
  }

  const ArchiveLinkOpen: string := "<a href=\"/?key="
  const PageParameter: string := "&page="
  const OlderClose: string := "\" id=\"older\">Older</a>"
  const SpacerHtml: string := "<div class=\"spacer\">" + "</div>"
  const NewerClose: string := "\" id=\"newer\">Newer</a>"
  const ArchiveOpen: string := "<div class=\"archive\">"
  const ArchiveClose: string := "</div>"

  function FragmentHtml(f: Fragment): string {
    match f
    case OlderLink(h) => ArchiveLinkOpen + h.key + PageParameter + IntToString(h.page) + OlderClose
    case Spacer => SpacerHtml
    case NewerLink(h) => ArchiveLinkOpen + h.key + PageParameter + IntToString(h.page) + NewerClose
  }

  function FragmentsHtml(parts: seq<Fragment>): string {
    if |parts| == 0 then "" else FragmentHtml(parts[0]) + FragmentsHtml(parts[1..])
  }

  /** The archive markup: empty exactly when there is no older and no newer page. */
  function Archive(key: string, hasOlder: bool, hasNewer: bool, page: int): (r: string)
    ensures r == "" <==> !hasOlder && !hasNewer
  {
    var parts := ArchiveParts(key, hasOlder, hasNewer, page);
    if parts == [] then "" else ArchiveOpen + FragmentsHtml(parts) + ArchiveClose
  }

  /**
   Fills the template: the first `{{posts}}`, then the first `{{form}}`, then
   the first `{{archive}}` of the text so far, each replaced by its text
   inserted literally.
   */
  function FillTemplate(template: string, items: string, form: string, archive: string): string {
    var t := ReplaceFirst(template, "{{posts}}", items);
    var t := ReplaceFirst(t, "{{form}}", form);
    ReplaceFirst(t, "{{archive}}", archive)
  }

  /** The same three replacements with `String.prototype.replace`, which interprets `$` sequences. */
  function FillTemplateJs(template: string, items: string, form: string, archive: string): string {
    var t := ReplaceFirstJs(template, "{{posts}}", items);
    var t := ReplaceFirstJs(t, "{{form}}", form);
    ReplaceFirstJs(t, "{{archive}}", archive)
  }

  /**
   The exported render function, inserting the rendered pieces literally. A
   template without `{` holds no placeholder and comes back unchanged.
   */
  function Render(template: string, posts: seq<Post>, key: string, isEdit: bool,
                  hasOlder: bool, hasNewer: bool, page: int): (r: string)
    ensures NoBrace(template) ==> r == template
  {
    NoPlaceholdersInBraceFree(template);
    FillTemplate(template, ItemsHtml(posts), Form(isEdit), Archive(key, hasOlder, hasNewer, page))
  }

  /**
   The exported render function as written, with `String.prototype.replace`.
   A template without `{` comes back unchanged here too.
   */
  function RenderAsWritten(template: string, posts: seq<Post>, key: string, isEdit: bool,
                           hasOlder: bool, hasNewer: bool, page: int): (r: string)
    ensures NoBrace(template) ==> r == template
  {
    NoPlaceholdersInBraceFree(template);
    FillTemplateJs(template, ItemsHtml(posts), Form(isEdit), Archive(key, hasOlder, hasNewer, page))
  }

  predicate NoBrace(s: string) {
    '{' !in s
  }

  predicate NoDollar(s: string) {
    '$' !in s
  }

  /** A placeholder (it starts with `{`) is first found right after a brace-free prefix. */
  lemma FirstAfterBraceFree(pre: string, pat: string, post: string)
    requires NoBrace(pre) && |pat| > 0 && pat[0] == '{'
    ensures FirstOccurrence(pre + pat + post, pat, |pre|)
  {
    var s := pre + pat + post;
    assert s[|pre|..|pre| + |pat|] == pat;
    forall j | 0 <= j < |pre|
      ensures !OccursAt(s, pat, j)
    {
      if j + |pat| <= |s| {
        assert s[j..j + |pat|][0] == s[j] == pre[j];
        assert pre[j] in pre;
      }
    }
  }

  /** Literal replacement of a placeholder that follows a brace-free prefix. */
  lemma ReplaceAfterBraceFree(pre: string, pat: string, post: string, rep: string)
    requires NoBrace(pre) && |pat| > 0 && pat[0] == '{'
    ensures ReplaceFirst(pre + pat + post, pat, rep) == pre + rep + post
  {
    var s := pre + pat + post;
    FirstAfterBraceFree(pre, pat, post);
    assert s[..|pre|] == pre;
    assert s[|pre| + |pat|..] == post;
  }

  /** A brace-free text holds none of the three placeholders. */
  lemma NoPlaceholdersInBraceFree(s: string)
    ensures NoBrace(s) ==> !Contains(s, "{{posts}}") && !Contains(s, "{{form}}") && !Contains(s, "{{archive}}")
  {
    if NoBrace(s) {
      NoPlaceholderInBraceFree(s, "{{posts}}");
      NoPlaceholderInBraceFree(s, "{{form}}");
      NoPlaceholderInBraceFree(s, "{{archive}}");
    }
  }

  /** A brace-free text holds no placeholder. */
  lemma NoPlaceholderInBraceFree(s: string, pat: string)
    requires NoBrace(s) && |pat| > 0 && pat[0] == '{'
    ensures !Contains(s, pat)
  {
    forall i | 0 <= i && i + |pat| <= |s|
      ensures !OccursAt(s, pat, i)
    {
      assert s[i..i + |pat|][0] == s[i];
      assert s[i] in s;
    }
  }

  /**
   With the placeholders in order, once each, and no `{` before the last one
   other than their own, every piece lands where its placeholder stood.
   */
  lemma FillTemplateInOrder(a: string, b: string, c: string, d: string,
                            items: string, form: string, archive: string)
    requires NoBrace(a) && NoBrace(b) && NoBrace(c) && NoBrace(items) && NoBrace(form)
    ensures FillTemplate(a + "{{posts}}" + b + "{{form}}" + c + "{{archive}}" + d, items, form, archive)
         == a + items + b + form + c + archive + d
  {
    ReplaceThreeInOrder(a, b, c, d, "{{posts}}", "{{form}}", "{{archive}}", items, form, archive);
  }

  /** Three placeholders, each starting with `{`, replaced in turn after brace-free text. */
  lemma ReplaceThreeInOrder(a: string, b: string, c: string, d: string,
                                               p: string, f: string, q: string,
                                               items: string, form: string, archive: string)
    requires |p| > 0 && p[0] == '{' && |f| > 0 && f[0] == '{' && |q| > 0 && q[0] == '{'
    requires NoBrace(a) && NoBrace(b) && NoBrace(c) && NoBrace(items) && NoBrace(form)
    ensures ReplaceFirst(ReplaceFirst(ReplaceFirst(a + p + b + f + c + q + d, p, items), f, form), q, archive)
         == a + items + b + form + c + archive + d
  {
    ReplacePostsStep(a, b, c, d, p, f, q, items);
    ReplaceAfterBraceFree(a + items + b, f, c + q + d, form);
    ReplaceArchiveStep(a + items + b, c, d, q, form, archive);
  }

  lemma ReplacePostsStep(a: string, b: string, c: string, d: string, p: string, f: string, q: string, items: string)
    requires NoBrace(a) && |p| > 0 && p[0] == '{'
    ensures ReplaceFirst(a + p + b + f + c + q + d, p, items) == (a + items + b) + f + (c + q + d)
  {
    var x := a + p;
    Regroup(x, b, f);
    Regroup(x, b + f, c);
    Regroup(x, b + f + c, q);
    Regroup(x, b + f + c + q, d);
    ReplaceAfterBraceFree(a, p, b + f + c + q + d, items);
    Regroup(b + f, c + q, d);
    Regroup(b + f, c, q);
    Regroup(a + items, b + f, c + q + d);
    Regroup(a + items, b, f);
  }

  lemma Regroup(x: string, y: string, z: string)
    ensures x + (y + z) == x + y + z
  {
  }

  lemma ReplaceArchiveStep(pre: string, c: string, d: string, q: string, form: string, archive: string)
    requires NoBrace(pre) && NoBrace(form) && NoBrace(c) && |q| > 0 && q[0] == '{'
    ensures ReplaceFirst(pre + form + (c + q + d), q, archive) == pre + form + c + archive + d
  {
    assert pre + form + (c + q + d) == (pre + form + c) + q + d;
    ReplaceAfterBraceFree(pre + form + c, q, d, archive);
  }

  /** Without `$` in the inserted texts, the as-written filling is the literal one. */
  lemma FillTemplateAgreesWithoutDollar(template: string, items: string, form: string, archive: string)
    requires NoDollar(items) && NoDollar(form) && NoDollar(archive)
    ensures FillTemplateJs(template, items, form, archive) == FillTemplate(template, items, form, archive)
  {
    ReplaceFirstJsAgreesWithoutDollar(template, "{{posts}}", items);
    var t1 := ReplaceFirst(template, "{{posts}}", items);
    ReplaceFirstJsAgreesWithoutDollar(t1, "{{form}}", form);
    var t2 := ReplaceFirst(t1, "{{form}}", form);
    ReplaceFirstJsAgreesWithoutDollar(t2, "{{archive}}", archive);
  }

  /** None of the fixed markup holds a `{`; the item and form markup hold no `$` either. */
  lemma MarkupIsPlain()
    ensures NoBrace(AnchorOpen) && NoBrace(ImageMiddle) && NoBrace(ImageClose)
    ensures NoBrace(LinkMiddle) && NoBrace(LinkClose)
    ensures NoBrace(ItemOpen) && NoBrace(ItemMiddle) && NoBrace(ItemClose) && NoBrace(FormHtml)
    ensures NoBrace(ArchiveLinkOpen) && NoBrace(PageParameter) && NoBrace(OlderClose) && NoBrace(SpacerHtml)
    ensures NoBrace(NewerClose) && NoBrace(ArchiveOpen) && NoBrace(ArchiveClose)
    ensures NoDollar(ItemOpen) && NoDollar(ItemMiddle) && NoDollar(ItemClose) && NoDollar(FormHtml)
  {
    ContentMarkupIsPlain();
    ItemMarkupIsPlain();
    FormMarkupIsPlain();
    ArchiveMarkupIsPlain();
  }

  lemma ContentMarkupIsPlain()
    ensures NoBrace(AnchorOpen) && NoBrace(ImageMiddle) && NoBrace(ImageClose)
    ensures NoBrace(LinkMiddle) && NoBrace(LinkClose)
  {
  }

  lemma ItemMarkupIsPlain()
    ensures NoBrace(ItemOpen) && NoBrace(ItemMiddle) && NoBrace(ItemClose)
    ensures NoDollar(ItemOpen) && NoDollar(ItemMiddle) && NoDollar(ItemClose)
  {
    ItemOpenIsPlain();
    ItemMiddleIsPlain();
    ItemCloseIsPlain();
  }

  lemma ItemOpenIsPlain()
    ensures NoBrace(ItemOpen) && NoDollar(ItemOpen)
  {
  }

  lemma ItemMiddleIsPlain()
    ensures NoBrace(ItemMiddle) && NoDollar(ItemMiddle)
  {
  }

  lemma ItemCloseIsPlain()
    ensures NoBrace(ItemClose) && NoDollar(ItemClose)
  {
  }

  /**
   The form markup holds no `{` and no `$`: neither does any of its five
   pieces, each checked by a lemma of its own.
   */
  lemma FormMarkupIsPlain()
    ensures NoBrace(FormHtml) && NoDollar(FormHtml)
  {
    FormOpenIsPlain();
    FormInputIsPlain();
    FormPlaceholderIsPlain();
    FormButtonIsPlain();
    assert NoBrace(FormClose) && NoDollar(FormClose);
  }

  lemma FormOpenIsPlain()
    ensures NoBrace(FormOpen) && NoDollar(FormOpen)
  {
  }

  lemma FormInputIsPlain()
    ensures NoBrace(FormInput) && NoDollar(FormInput)
  {
  }

  lemma FormPlaceholderIsPlain()
    ensures NoBrace(FormPlaceholder) && NoDollar(FormPlaceholder)
  {
  }

  lemma FormButtonIsPlain()
    ensures NoBrace(FormButton) && NoDollar(FormButton)
  {
  }

  lemma ArchiveMarkupIsPlain()
    ensures NoBrace(ArchiveLinkOpen) && NoBrace(PageParameter) && NoBrace(OlderClose) && NoBrace(SpacerHtml)
    ensures NoBrace(NewerClose) && NoBrace(ArchiveOpen) && NoBrace(ArchiveClose)
  {
  }

  lemma NoBraceContent(text: string, c: Content)
    requires NoBrace(text) && (c == Image(text) || c == Link(text) || c == Plain(text))
    ensures NoBrace(ContentHtml(c))
  {
    MarkupIsPlain();
  }

  lemma {:induction false} NoBraceItems(posts: seq<Post>)
    requires forall i :: 0 <= i < |posts| ==> NoBrace(posts[i].text) && NoBrace(posts[i].timestamp)
    ensures NoBrace(ItemsHtml(posts))
    decreases |posts|
  {
    if |posts| > 0 {
      NoBraceItems(posts[1..]);
      NoBraceContent(posts[0].text, PostContent(posts[0].text));
      MarkupIsPlain();
    }
  }

  lemma NoBraceDecimal(n: int)
    ensures NoBrace(IntToString(n))
  {
    var r := IntToString(n);
    forall i | 0 <= i < |r|
      ensures r[i] != '{'
    {
      if n < 0 && i > 0 {
        assert r[i] == NatToString(-n)[i - 1];
      }
    }
  }

  lemma {:induction false} NoBraceFragments(parts: seq<Fragment>)
    requires forall i :: 0 <= i < |parts| && !parts[i].Spacer? ==> NoBrace(parts[i].href.key)
    ensures NoBrace(FragmentsHtml(parts))
    decreases |parts|
  {
    if |parts| > 0 {
      NoBraceFragments(parts[1..]);
      MarkupIsPlain();
      match parts[0]
      case OlderLink(h) => NoBraceDecimal(h.page);
      case NewerLink(h) => NoBraceDecimal(h.page);
      case Spacer =>
    }
  }

  /**
   For a template holding the three placeholders once each, in order, with no
   `{` before the archive placeholder other than theirs, and posts whose
   texts and timestamps hold no `{`, the page is the template with the items,
   the form and the archive bar in place of the placeholders.
   */
  lemma RenderFillsTemplate(a: string, b: string, c: string, d: string, posts: seq<Post>, key: string,
                            isEdit: bool, hasOlder: bool, hasNewer: bool, page: int)
    requires NoBrace(a) && NoBrace(b) && NoBrace(c)
    requires forall i :: 0 <= i < |posts| ==> NoBrace(posts[i].text) && NoBrace(posts[i].timestamp)
    ensures Render(a + "{{posts}}" + b + "{{form}}" + c + "{{archive}}" + d, posts, key, isEdit, hasOlder, hasNewer, page)
         == a + ItemsHtml(posts) + b + Form(isEdit) + c + Archive(key, hasOlder, hasNewer, page) + d
  {
    NoBraceItems(posts);
    RenderFillsPieces(a, b, c, d, posts, key, isEdit, hasOlder, hasNewer, page);
  }

  /** The same statement with the posts' brace freedom already established. */
  lemma RenderFillsPieces(a: string, b: string, c: string, d: string, posts: seq<Post>, key: string,
                          isEdit: bool, hasOlder: bool, hasNewer: bool, page: int)
    requires NoBrace(a) && NoBrace(b) && NoBrace(c) && NoBrace(ItemsHtml(posts))
    ensures Render(a + "{{posts}}" + b + "{{form}}" + c + "{{archive}}" + d, posts, key, isEdit, hasOlder, hasNewer, page)
         == a + ItemsHtml(posts) + b + Form(isEdit) + c + Archive(key, hasOlder, hasNewer, page) + d
  {
    FillTemplateWithForm(a, b, c, d, ItemsHtml(posts), isEdit, Archive(key, hasOlder, hasNewer, page));
    RenderIsFill(a + "{{posts}}" + b + "{{form}}" + c + "{{archive}}" + d, posts, key, isEdit, hasOlder, hasNewer, page);
  }

  /** Template filling in order, with the form fragment as the middle piece. */
  lemma FillTemplateWithForm(a: string, b: string, c: string, d: string,
                             items: string, isEdit: bool, archive: string)
    requires NoBrace(a) && NoBrace(b) && NoBrace(c) && NoBrace(items)
    ensures FillTemplate(a + "{{posts}}" + b + "{{form}}" + c + "{{archive}}" + d, items, Form(isEdit), archive)
         == a + items + b + Form(isEdit) + c + archive + d
  {
    FormIsPlain(isEdit);
    FillTemplateInOrder(a, b, c, d, items, Form(isEdit), archive);
  }

  /** Rendering is template filling with the three rendered pieces. */
  lemma RenderIsFill(template: string, posts: seq<Post>, key: string, isEdit: bool,
                     hasOlder: bool, hasNewer: bool, page: int)
    ensures Render(template, posts, key, isEdit, hasOlder, hasNewer, page)
         == FillTemplate(template, ItemsHtml(posts), Form(isEdit), Archive(key, hasOlder, hasNewer, page))
  {
  }

  /** Without `$` in the posts' markup and the archive bar, the two renderers agree. */
  lemma RenderAgreesWithoutDollar(template: string, posts: seq<Post>, key: string, isEdit: bool,
                                  hasOlder: bool, hasNewer: bool, page: int)
    requires NoDollar(ItemsHtml(posts)) && NoDollar(Archive(key, hasOlder, hasNewer, page))
    ensures RenderAsWritten(template, posts, key, isEdit, hasOlder, hasNewer, page)
         == Render(template, posts, key, isEdit, hasOlder, hasNewer, page)
  {
    MarkupIsPlain();
    FillTemplateAgreesWithoutDollar(template, ItemsHtml(posts), Form(isEdit), Archive(key, hasOlder, hasNewer, page));
  }

  /** `$$` is plain text for `app.js`: no extension and no `http`. */
  lemma DollarsArePlain()
    ensures PostContent("$$") == Plain("$$")
  {
    var lowered := Lower("$$");
    assert |lowered| == 2;
    forall i, k | 0 <= k < |ImageExtensions|
      ensures !ExtensionAt(lowered, i, ImageExtensions[k], false)
    {
      NoExtensionAt(lowered, i, ImageExtensions[k], false);
    }
  }

  /** A template that is nothing but the posts placeholder becomes the items, literally. */
  lemma OnlySlotFilled(p: string, f: string, q: string, items: string)
    requires |p| > 0 && p[0] == '{' && |f| > 0 && f[0] == '{' && |q| > 0 && q[0] == '{'
    requires NoBrace(items)
    ensures ReplaceFirst(ReplaceFirst(ReplaceFirst(p, p, items), f, ""), q, "") == items
  {
    assert "" + p + "" == p;
    ReplaceAfterBraceFree("", p, "", items);
    assert "" + items + "" == items;
    NoPlaceholderInBraceFree(items, f);
    NoPlaceholderInBraceFree(items, q);
  }

  /** The same template with `String.prototype.replace`: the items after `$` substitution. */
  lemma OnlySlotFilledJs(p: string, f: string, q: string, items: string)
    requires |p| > 0 && p[0] == '{' && |f| > 0 && f[0] == '{' && |q| > 0 && q[0] == '{'
    requires NoBrace(Substitution(items, p, "", ""))
    ensures ReplaceFirstJs(ReplaceFirstJs(ReplaceFirstJs(p, p, items), f, ""), q, "") == Substitution(items, p, "", "")
  {
    var expanded := Substitution(items, p, "", "");
    assert "" + p + "" == p;
    FirstAfterBraceFree("", p, "");
    assert p[..0] == "" && p[|p|..] == "";
    assert ReplaceFirstJs(p, p, items) == "" + expanded + "";
    assert "" + expanded + "" == expanded;
    NoPlaceholderInBraceFree(expanded, f);
    NoPlaceholderInBraceFree(expanded, q);
  }

  /** The markup of a post whose text is `$$`: the two dollars sit between fixed markup. */
  lemma DollarItem(timestamp: string)
    ensures ItemsHtml([Post("$$", timestamp, "")]) == ItemOpen + ("$$" + (ItemMiddle + timestamp + ItemClose))
  {
    DollarsArePlain();
    var post := Post("$$", timestamp, "");
    assert [post][1..] == [];
    assert ItemsHtml([post]) == ItemHtml(post) + "";
    assert ItemHtml(post) + "" == ItemHtml(post);
    var dollars := ContentHtml(PostContent(post.text));
    assert dollars == "$$";
    Regroup(ItemOpen + dollars, ItemMiddle, timestamp);
    Regroup(ItemOpen + dollars, ItemMiddle + timestamp, ItemClose);
    Regroup(ItemOpen, dollars, ItemMiddle + timestamp + ItemClose);
  }

  /** `$$` after `$`-free markup collapses to a single `$`; nothing else changes. */
  lemma DollarPairCollapses(tail: string, matched: string)
    requires NoDollar(ItemOpen) && NoDollar(tail)
    ensures Substitution(ItemOpen + ("$$" + tail), matched, "", "") == ItemOpen + ("$" + tail)
  {
    SubstitutionDollarPair(ItemOpen, tail, matched, "", "");
  }

  /**
   A post whose text is `$$`, rendered into the template `{{posts}}`, loses a
   character with the as-written renderer and keeps it with the literal one.
   */
  lemma DollarPostIsRewritten(timestamp: string)
    requires NoBrace(timestamp) && NoDollar(timestamp)
    ensures |RenderAsWritten("{{posts}}", [Post("$$", timestamp, "")], "", false, false, false, 1)| + 1
         == |Render("{{posts}}", [Post("$$", timestamp, "")], "", false, false, false, 1)|
  {
    var post := Post("$$", timestamp, "");
    var tail := ItemMiddle + timestamp + ItemClose;
    var items := ItemsHtml([post]);
    var expanded := ItemOpen + ("$" + tail);
    ItemMarkupIsPlain();
    DollarItem(timestamp);
    assert NoBrace(items) && NoBrace(expanded);
    DollarPairCollapses(tail, "{{posts}}");
    assert Form(false) == "" && Archive("", false, false, 1) == "";
    OnlySlotFilled("{{posts}}", "{{form}}", "{{archive}}", items);
    OnlySlotFilledJs("{{posts}}", "{{form}}", "{{archive}}", items);
    assert |items| == |expanded| + 1;
  }

  lemma LowerOfLowercase(s: string)
    requires forall i :: 0 <= i < |s| ==> !('A' <= s[i] <= 'Z')
    ensures Lower(s) == s
  {
  }

  /**
   The two image tests differ: an anchored `.avif` is an image only for the
   browser, and `.png` followed by a letter only for `app.js`.
   */
  lemma ImageRulesDiffer()
    ensures Client.IsImage("a.avif") && !IsImage("a.avif")
    ensures !Client.IsImage("a.pngs") && IsImage("a.pngs")
  {
    var avif := "a.avif";
    var pngs := "a.pngs";
    LowerOfLowercase(avif);
    LowerOfLowercase(pngs);
    assert "." + Client.ImageExtensions[5] == ".avif";
    assert avif[1..6] == ".avif";
    assert ExtensionAt(Lower(avif), 1, Client.ImageExtensions[5], true);
    forall i, k | 0 <= k < |ImageExtensions|
      ensures !ExtensionAt(avif, i, ImageExtensions[k], false)
    {
      NoExtensionAt(avif, i, ImageExtensions[k], false);
    }
    assert "." + ImageExtensions[3] == ".png";
    assert pngs[1..5] == ".png";
    assert ExtensionAt(Lower(pngs), 1, ImageExtensions[3], false);
    forall i, k | 0 <= k < |Client.ImageExtensions|
      ensures !ExtensionAt(pngs, i, Client.ImageExtensions[k], true)
    {
      NoExtensionAt(pngs, i, Client.ImageExtensions[k], true);
    }
    assert !Contains(pngs, Client.TwitterMedia);
  }

  /**
   The two tests agree on the common case: one of the five shared extensions
   at the end of the text (or before a query) is an image for both.
   */
  lemma AnchoredSharedExtensionIsImageForBoth(text: string, i: int, k: nat)
    requires k < |ImageExtensions|
    requires ExtensionAt(Lower(text), i, ImageExtensions[k], true)
    ensures IsImage(text) && Client.IsImage(text)
  {
    assert ImageExtensions[k] == Client.ImageExtensions[k];
    assert ExtensionAt(Lower(text), i, ImageExtensions[k], false);
  }
}
