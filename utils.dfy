/**
 * The helpers of the bot's utility module that the formatting code uses:
 * the emoji lookup `e()` with its name normalisation, the public-name filter
 * `cdir`, and the pass-through cases of `camel_case`. (`lower` is Text.Lower.)
 */
module Utils {
  import opened Text
  import opened Wrappers

  /** A value handed to e(): a string, or an integer id such as an avatar id. */
  datatype NameArg = StrName(s: string) | IntName(i: int)

  /** `str(name)`. */
  function PyStr(v: NameArg): string
  {
    match v
    case StrName(s) => s
    case IntName(i) => IntStr(i)
  }

  /**
   * The bot's table of game emojis, keyed by emoji name; the value is the text
   * the emoji renders as (for a custom emoji, `<:name:id>`). Where several
   * emojis share a name, the value is the first one; the table itself comes
   * from the chat platform.
   */
  type EmojiTable = map<string, string>

  /** The rewrites e() applies in this order, as (to_replace, new) pairs. */
  const Rewrites: seq<(string, string)> :=
    [(".", ""), (" ", ""), ("_", ""), ("-", ""), ("chestgolden", "chestgold")]

  /** The result of applying the rewrites rs one after another to s. */
  function ApplyRewrites(rs: seq<(string, string)>, s: string): string
    decreases |rs|
  {
    if rs == [] then s
    else Replace(ApplyRewrites(rs[..|rs| - 1], s), rs[|rs| - 1].0, rs[|rs| - 1].1)
  }

  /** The emoji name e() searches for. */
  function Normalise(name: NameArg, shouldFormat: bool): string
  {
    if shouldFormat then ApplyRewrites(Rewrites, Lower(PyStr(name))) else PyStr(name)
  }

  /** What e() yields, rendered as text: the emoji with the normalised name, or that name itself. */
  function EmojiFor(name: NameArg, shouldFormat: bool, table: EmojiTable): string
  {
    var n := Normalise(name, shouldFormat);
    if n in table then table[n] else n
  }

  /** e(name, should_format=..., ctx=...), with the context's emoji table passed in. */
  method E(name: NameArg, shouldFormat: bool, table: EmojiTable) returns (r: string)
    ensures Normalise(name, shouldFormat) in table ==> r == table[Normalise(name, shouldFormat)]
    ensures Normalise(name, shouldFormat) !in table ==> r == Normalise(name, shouldFormat)
    ensures r == EmojiFor(name, shouldFormat, table)
  {
    var n := PyStr(name);
    if shouldFormat {
      n := Lower(n);
      ghost var lowered := n;
      for k := 0 to |Rewrites|
        invariant n == ApplyRewrites(Rewrites[..k], lowered)
      {
        assert Rewrites[..k + 1][..k] == Rewrites[..k];
        n := Replace(n, Rewrites[k].0, Rewrites[k].1);
      }
      assert Rewrites[..|Rewrites|] == Rewrites;
    }
    r := if n in table then table[n] else n;
  }

  /** Rewrites whose replacement texts hold no capital letter keep a capital-free name capital-free. */
  lemma {:induction false} RewritesKeepNoUpper(rs: seq<(string, string)>, s: string)
    requires NoUpper(s)
    requires forall k :: 0 <= k < |rs| ==> NoUpper(rs[k].1)
    ensures NoUpper(ApplyRewrites(rs, s))
    decreases |rs|
  {
    if rs != [] {
      RewritesKeepNoUpper(rs[..|rs| - 1], s);
      ReplaceKeepsNoUpper(ApplyRewrites(rs[..|rs| - 1], s), rs[|rs| - 1].0, rs[|rs| - 1].1);
    }
  }

  /** A rewrite that deletes the character c, followed by rewrites none of whose replacements holds c, leaves no c. */
  lemma {:induction false} RewritesRemove(rs: seq<(string, string)>, s: string, k: nat, c: char)
    requires k < |rs| && rs[k] == ([c], "")
    requires forall j :: k < j < |rs| ==> c !in rs[j].1
    ensures c !in ApplyRewrites(rs, s)
    decreases |rs|
  {
    if k < |rs| - 1 {
      RewritesRemove(rs[..|rs| - 1], s, k, c);
      ReplaceKeepsOut(ApplyRewrites(rs[..|rs| - 1], s), rs[|rs| - 1].0, rs[|rs| - 1].1, c);
    } else {
      ReplaceRemovesChar(ApplyRewrites(rs[..|rs| - 1], s), c);
    }
  }

  /** Rewrites none of whose replacements holds c keep c out of a name that does not hold it. */
  lemma {:induction false} RewritesKeepOut(rs: seq<(string, string)>, s: string, c: char)
    requires c !in s
    requires forall k :: 0 <= k < |rs| ==> c !in rs[k].1
    ensures c !in ApplyRewrites(rs, s)
    decreases |rs|
  {
    if rs != [] {
      RewritesKeepOut(rs[..|rs| - 1], s, c);
      ReplaceKeepsOut(ApplyRewrites(rs[..|rs| - 1], s), rs[|rs| - 1].0, rs[|rs| - 1].1, c);
    }
  }

  /** A character other than a small letter that neither the name nor any emoji of the table holds is not in what e() yields. */
  lemma EmojiForKeepsOut(name: NameArg, table: EmojiTable, c: char)
    requires c !in PyStr(name) && !('a' <= c <= 'z')
    requires forall v :: v in table.Values ==> c !in v
    ensures c !in EmojiFor(name, true, table)
  {
    LowerKeepsOut(PyStr(name), c);
    RewritesKeepOut(Rewrites, Lower(PyStr(name)), c);
    var n := Normalise(name, true);
    if n in table {
      assert table[n] in table.Values;
    }
  }

  /** With should_format the name e() searches for holds no ASCII capital letter. */
  lemma NormalisedIsLower(name: NameArg)
    ensures NoUpper(Normalise(name, true))
  {
    RewritesKeepNoUpper(Rewrites, Lower(PyStr(name)));
  }

  /** With should_format the name e() searches for holds none of '.', ' ', '_', '-'. */
  lemma NormalisedHasNoSeparator(name: NameArg, c: char)
    requires c in ". _-"
    ensures c !in Normalise(name, true)
  {
    var k := if c == '.' then 0 else if c == ' ' then 1 else if c == '_' then 2 else 3;
    RewritesRemove(Rewrites, Lower(PyStr(name)), k, c);
  }

  lemma ApplyRewritesStep(k: nat, s: string)
    requires k < |Rewrites|
    ensures ApplyRewrites(Rewrites[..k + 1], s) == Replace(ApplyRewrites(Rewrites[..k], s), Rewrites[k].0, Rewrites[k].1)
  {
    assert Rewrites[..k + 1][..k] == Rewrites[..k];
  }

  /** The first four rewrites delete '.', ' ', '_' and '-', in that order. */
  lemma SeparatorRewrites(l: string)
    ensures ApplyRewrites(Rewrites[..4], l) == Replace(Replace(Replace(Replace(l, ".", ""), " ", ""), "_", ""), "-", "")
  {
    assert Rewrites[..1][..0] == [];
    ApplyRewritesStep(1, l);
    ApplyRewritesStep(2, l);
    ApplyRewritesStep(3, l);
  }

  /** Deleting a character absent from both words, then the one character between them, joins the words. */
  lemma DropBetween(a: string, b: string, d: char, c: char)
    requires d !in a && d !in b && d != c && c !in a && c !in b
    ensures Replace(Replace(a + [c] + b, [d], ""), [c], "") == a + b
  {
    ReplaceAbsentChar(a + [c] + b, d, "");
    ReplaceCut(a, b, c);
  }

  /** The separator rewrites join two words separated by one space. */
  lemma JoinTwoWords(a: string, b: string)
    requires '.' !in a && ' ' !in a && '_' !in a && '-' !in a
    requires '.' !in b && ' ' !in b && '_' !in b && '-' !in b
    ensures ApplyRewrites(Rewrites[..4], a + [' '] + b) == a + b
  {
    SeparatorRewrites(a + [' '] + b);
    DropBetween(a, b, '.', ' ');
    ReplaceAbsentChar(a + b, '_', "");
    ReplaceAbsentChar(a + b, '-', "");
  }

  /** "Chest Golden" is looked up as "chestgold". */
  lemma ChestGoldenIsChestGold()
    ensures Normalise(StrName("Chest Golden"), true) == "chestgold"
  {
    LowerChestGolden();
    JoinTwoWords("chest", "golden");
    assert "chest" + "golden" == "chestgolden";
    LastRewrite(Lower("Chest Golden"));
  }

  /** A name the separator rewrites turn into "chestgolden" ends as "chestgold". */
  lemma LastRewrite(l: string)
    requires ApplyRewrites(Rewrites[..4], l) == "chestgolden"
    ensures ApplyRewrites(Rewrites, l) == "chestgold"
  {
    ApplyRewritesStep(4, l);
    ReplaceWhole("chestgolden", "chestgold");
    assert Rewrites[..5] == Rewrites;
  }

  lemma LowerChestGolden()
    ensures Lower("Chest Golden") == "chest" + [' '] + "golden"
  {
    var l := Lower("Chest Golden");
    assert l[0] == 'c' && l[6] == 'g';
    assert forall i :: 0 <= i < 12 && i != 0 && i != 6 ==> l[i] == "chest golden"[i];
  }

  /** Without should_format the name is only passed through `str()`, and a name without an emoji comes back as it was searched for. */
  lemma UnformattedNameIsStr(name: NameArg, table: EmojiTable)
    requires PyStr(name) !in table
    ensures EmojiFor(name, false, table) == PyStr(name)
  {
  }

  /** `x.startswith('_')`. */
  predicate Private(x: string) { |x| >= 1 && x[0] == '_' }

  /** cdir(obj): the names of dir(obj) that do not start with '_', in their order. */
  function Cdir(names: seq<string>): (r: seq<string>)
    ensures forall x :: x in r <==> x in names && !Private(x)
    ensures |r| <= |names|
  {
    if names == [] then []
    else (if Private(names[0]) then [] else [names[0]]) + Cdir(names[1..])
  }

  /** cdir keeps the order of dir(): filtering a concatenation concatenates the filtered parts. */
  lemma {:induction false} CdirAppend(a: seq<string>, b: seq<string>)
    ensures Cdir(a + b) == Cdir(a) + Cdir(b)
    decreases |a|
  {
    if a != [] {
      var head := if Private(a[0]) then [] else [a[0]];
      assert (a + b)[0] == a[0];
      assert (a + b)[1..] == a[1..] + b;
      assert Cdir(a + b) == head + Cdir(a[1..] + b);
      CdirAppend(a[1..], b);
      assert Cdir(a) == head + Cdir(a[1..]);
      assert head + (Cdir(a[1..]) + Cdir(b)) == (head + Cdir(a[1..])) + Cdir(b);
    } else {
      assert a + b == b;
    }
  }

  /** What camel_case does with its text: returns it unchanged, or splits and title-cases it. */
  datatype CamelCaseResult = Unchanged(text: Option<string>) | SplitAndTitled

  /** The early return of camel_case: None and "PvP" come back unchanged; every other text goes to the regex split. */
  function CamelCase(text: Option<string>): (r: CamelCaseResult)
    ensures r.Unchanged? <==> text.None? || text == Some("PvP")
    ensures r.Unchanged? ==> r.text == text
  {
    if text == None || text == Some("PvP") then Unchanged(text) else SplitAndTitled
  }
}
