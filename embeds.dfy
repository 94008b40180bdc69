/**
 * Pages as the bot builds them: a chat embed reduced to the parts this model
 * reads or writes, and the fixed-size paging that splits a list of entries
 * over several embeds.
 */
module Embeds {
  import opened Arith

  /** An embed footer: its text (`""` for an empty footer) and its icon URL. */
  datatype Footer = Footer(text: string, iconUrl: string)

  /** One name/value field of an embed. */
  datatype Field = Field(name: string, value: string)

  /** A pre-rendered page; colour, thumbnail, image and the author's icon are not modelled. */
  datatype Embed = Embed(title: string, author: string, description: string, fields: seq<Field>, footer: Footer)

  function AddField(em: Embed, f: Field): (r: Embed)
    ensures r.fields == em.fields + [f]
    ensures r.(fields := em.fields) == em
  {
    em.(fields := em.fields + [f])
  }

  /** The page count `math.ceil(n / size)`. */
  function CeilDiv(n: nat, size: nat): nat
    requires size > 0
  {
    (n + size - 1) / size
  }

  /** items cut into consecutive pages of `size` entries; only the last page may be shorter. */
  function Chunks<T>(items: seq<T>, size: nat): seq<seq<T>>
    requires size > 0
    decreases |items|
  {
    if |items| == 0 then []
    else if |items| <= size then [items]
    else [items[..size]] + Chunks(items[size..], size)
  }

  function Flatten<T>(pages: seq<seq<T>>): seq<T>
  {
    if pages == [] then [] else pages[0] + Flatten(pages[1..])
  }

  /** The page count is ceil(n / size), every page holds 1 to size entries, and reading the pages in order gives the entries back. */
  lemma {:induction false} ChunksShape<T>(items: seq<T>, size: nat)
    requires size > 0
    ensures |Chunks(items, size)| == CeilDiv(|items|, size)
    ensures forall p :: 0 <= p < |Chunks(items, size)| ==> 1 <= |Chunks(items, size)[p]| <= size
    ensures Flatten(Chunks(items, size)) == items
    decreases |items|
  {
    if |items| > size {
      ChunksShape(items[size..], size);
      DivSub(|items| + size - 1, size);
      assert items[..size] + items[size..] == items;
    } else if |items| > 0 {
      DivModUnique(|items| + size - 1, size, 1, |items| - 1);
      assert items + [] == items;
    }
  }

  /** Entry k lands on page k / size, at position k % size of that page. */
  lemma {:induction false} ChunksIndex<T>(items: seq<T>, size: nat, k: nat)
    requires size > 0 && k < |items|
    ensures k / size < |Chunks(items, size)|
    ensures k % size < |Chunks(items, size)[k / size]|
    ensures Chunks(items, size)[k / size][k % size] == items[k]
    decreases |items|
  {
    var chunks := Chunks(items, size);
    if |items| > size && k >= size {
      var rest := Chunks(items[size..], size);
      assert chunks == [items[..size]] + rest;
      ChunksIndex(items[size..], size, k - size);
      DivSub(k, size);
      var q, r := (k - size) / size, (k - size) % size;
      assert k / size == q + 1 && k % size == r;
      assert chunks[q + 1] == rest[q];
      assert items[size..][k - size] == items[k];
    } else {
      DivModUnique(k, size, 0, k);
      assert chunks[0] == if |items| <= size then items else items[..size];
    }
  }

  /**
   * Chunks of a list grown by one entry: a new page opens exactly when the
   * entries so far fill whole pages. Both page-building loops of the bot rest on this.
   */
  lemma {:induction false} ChunksSnoc<T>(s: seq<T>, x: T, size: nat)
    requires size > 0
    ensures |s| % size == 0 ==> Chunks(s + [x], size) == Chunks(s, size) + [[x]]
    ensures |s| % size != 0 ==>
      && |Chunks(s, size)| >= 1
      && Chunks(s + [x], size) == Chunks(s, size)[..|Chunks(s, size)| - 1] + [Chunks(s, size)[|Chunks(s, size)| - 1] + [x]]
    decreases |s|
  {
    if |s| == 0 {
      assert s + [x] == [x];
    } else if |s| < size {
      DivModUnique(|s|, size, 0, |s|);
    } else if |s| == size {
      DivModUnique(|s|, size, 1, 0);
      assert (s + [x])[..size] == s;
      assert (s + [x])[size..] == [x];
    } else {
      ChunksSnoc(s[size..], x, size);
      assert (s + [x])[..size] == s[..size];
      assert (s + [x])[size..] == s[size..] + [x];
      DivSub(|s|, size);
    }
  }

  /** The embeds of a paged list: one copy of the page header per page, carrying that page's fields in order. */
  function PagesOf(header: Embed, pages: seq<seq<Field>>): (r: seq<Embed>)
    ensures |r| == |pages|
    ensures forall p :: 0 <= p < |pages| ==> r[p] == header.(fields := pages[p])
  {
    seq(|pages|, p requires 0 <= p < |pages| => header.(fields := pages[p]))
  }

  /** Adding one field to a paged list: a new page holding just that field, or the last page extended by it. */
  lemma PagesGrow(header: Embed, pages: seq<seq<Field>>, f: Field)
    requires header.fields == []
    ensures PagesOf(header, pages + [[f]]) == PagesOf(header, pages) + [AddField(header, f)]
    ensures |pages| >= 1 ==>
      var last := |pages| - 1;
      PagesOf(header, pages[..last] + [pages[last] + [f]])
        == PagesOf(header, pages)[..last] + [AddField(PagesOf(header, pages)[last], f)]
  {
    assert [] + [f] == [f];
  }

  /** In a paged list of fields, field k is on page k / size at position k % size, and there are ceil(n / size) pages. */
  lemma PagedFieldPlacement(header: Embed, fields: seq<Field>, size: nat, k: nat)
    requires size > 0 && k < |fields|
    ensures var pages := PagesOf(header, Chunks(fields, size));
      && |pages| == CeilDiv(|fields|, size)
      && Flatten(Chunks(fields, size)) == fields
      && k / size < |pages| && k % size < |pages[k / size].fields|
      && pages[k / size].fields[k % size] == fields[k]
  {
    PagesCount(header, fields, size);
    PagesIndex(header, fields, size, k);
  }

  lemma PagesCount(header: Embed, fields: seq<Field>, size: nat)
    requires size > 0
    ensures |PagesOf(header, Chunks(fields, size))| == CeilDiv(|fields|, size)
    ensures Flatten(Chunks(fields, size)) == fields
  {
    ChunksShape(fields, size);
  }

  lemma PagesIndex(header: Embed, fields: seq<Field>, size: nat, k: nat)
    requires size > 0 && k < |fields|
    ensures var pages := PagesOf(header, Chunks(fields, size));
      && k / size < |pages| && k % size < |pages[k / size].fields|
      && pages[k / size].fields[k % size] == fields[k]
  {
    ChunksIndex(fields, size, k);
    PageFields(header, Chunks(fields, size), k / size);
  }

  lemma PageFields(header: Embed, pages: seq<seq<Field>>, q: nat)
    requires q < |pages|
    ensures q < |PagesOf(header, pages)| && PagesOf(header, pages)[q].fields == pages[q]
  {
  }

  /**
   * One step of a page-building loop: when the fields so far fill whole
   * pages a new page is opened, and the field goes on the last page.
   */
  lemma PagesAddField(header: Embed, done: seq<Field>, f: Field, size: nat)
    requires header.fields == [] && size > 0
    ensures var ems := PagesOf(header, Chunks(done, size));
      var grown := if |done| % size == 0 then ems + [header] else ems;
      && |grown| >= 1
      && PagesOf(header, Chunks(done + [f], size)) == grown[..|grown| - 1] + [AddField(grown[|grown| - 1], f)]
  {
    ChunksSnoc(done, f, size);
    PagesGrow(header, Chunks(done, size), f);
    var ems := PagesOf(header, Chunks(done, size));
    if |done| % size == 0 {
      assert (ems + [header])[..|ems|] == ems;
    }
  }

  /** PagesAddField for a loop that counts its fields in n and keeps the pages so far in ems. */
  lemma PagesStep(header: Embed, done: seq<Field>, f: Field, size: nat, n: nat, ems: seq<Embed>)
    requires header.fields == [] && size > 0 && |done| == n
    requires ems == PagesOf(header, Chunks(done, size))
    ensures var grown := if n % size == 0 then ems + [header] else ems;
      && |grown| >= 1
      && grown[..|grown| - 1] + [AddField(grown[|grown| - 1], f)] == PagesOf(header, Chunks(done + [f], size))
  {
    PagesAddField(header, done, f, size);
  }
}
