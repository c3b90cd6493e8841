/** What the entry point makes of the fields of an item: its title, its kind, the label in
    front of every chunk, and the metadata. */
module Items {
  import opened Text
  import opened Chunking

  /** The part stands in the text at some position. */
  ghost predicate StandsIn(s: string, part: string) {
    exists i: nat :: StandsAt(s, part, i)
  }

  predicate StandsAt(s: string, part: string, i: nat) {
    i + |part| <= |s| && s[i..i + |part|] == part
  }

  lemma {:induction false} ContainsIff(s: string, part: string)
    ensures Contains(s, part) <==> StandsIn(s, part)
  {
    if Contains(s, part) {
      var i := Position(s, part);
    } else if StandsIn(s, part) {
      var i: nat :| StandsAt(s, part, i);
      Found(s, part, i);
    }
  }

  lemma {:induction false} Position(s: string, part: string) returns (i: nat)
    requires Contains(s, part)
    ensures StandsAt(s, part, i)
  {
    if part <= s {
      i := 0;
    } else {
      i := Position(s[1..], part);
      assert s[i + 1..i + 1 + |part|] == s[1..][i..i + |part|];
      i := i + 1;
    }
  }

  lemma {:induction false} Found(s: string, part: string, i: nat)
    requires StandsAt(s, part, i)
    ensures Contains(s, part)
  {
    if i == 0 {
      assert part <= s;
    } else {
      assert s[1..][i - 1..i - 1 + |part|] == s[i..i + |part|];
      Found(s[1..], part, i - 1);
    }
  }

  /** The title without the blanks around it; nothing when it is missing or null. */
  ghost predicate IsTitle(f: Field, title: string) {
    if f.Str? then Trimmed(title) && exists a: string, b: string :: Blank(a) && Blank(b) && f.value == a + title + b
    else title == ""
  }

  /** The label of a chunk: the title, and the section when there is one with another name. */
  function LabelFor(title: string, section: Option<string>): string {
    match section
    case None => title
    case Some(s) => if s == "" || s == title then title else title + " › " + s
  }

  /** A field that is missing is null in the metadata. */
  function Given(f: Field): Field { if f.Absent? then Null else f }

  /** The kind of an item; a document unless it says otherwise. */
  function Kind(item: Item): Field { if item.docType.Absent? then Str("doc") else item.docType }

  /** Entries have a limit of 800 tokens, documents one of 500 with an overlap of 50. */
  lemma {:induction false} RawChunksAre(item: Item, text: string)
    ensures RawChunks(item, text)
         == if Kind(item) == Str("faq") then FaqChunks(TitleOf(item), text, 800) else DocChunks(text, 500, 50)
    ensures IsTitle(item.title, TitleOf(item))
  {
    if item.title.Str? {
      var a, b := StripParts(item.title.value);
      assert Blank(a) && Blank(b) && item.title.value == a + TitleOf(item) + b;
    } else {
      StripBlank("");
    }
  }

  /** Each chunk of an item: its raw text, behind the label and a newline unless the first
      line of it holds the title; its place and section; and the fields of the item. */
  lemma {:induction false} ChunkOfItem(item: Item, text: string, chunks: seq<Chunk>, k: nat)
    requires IsDocument(item, text, chunks) && k < |chunks|
    ensures var title, raw, chunk := TitleOf(item), RawChunks(item, text), chunks[k];
      && k < |raw| && chunk.section == raw[k].section && chunk.position == k
      && chunk.text == (if title != "" && StandsIn(Split(raw[k].text)[0], title) then raw[k].text
                        else LabelFor(title, raw[k].section) + "\n" + raw[k].text)
      && chunk.metadata.Some?
      && var m := chunk.metadata.value;
         && m.documentId == Given(item.id) && m.visibility == Given(item.visibility) && m.docType == Kind(item)
         && m.title == title && m.section == raw[k].section && m.url == Given(item.url) && m.position == k
         && m.updatedAt == Given(item.updatedAt)
  {
    var raw := RawChunks(item, text);
    ContainsIff(Split(raw[k].text)[0], TitleOf(item));
  }
}
