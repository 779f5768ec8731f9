/**
 * unionization_tmp.py: how creategraph.py canonicalises ingredient names
 * before counting. A name is cut at its first bracket and stripped; a
 * non-empty result goes through the MeCab tagger (only the nouns are
 * kept), the translator, lower-casing and the removal of zero-width
 * spaces. The tagger and the translator are foreign code and appear here
 * as function parameters.
 */
module Unionization {
  import opened PyStr
  import opened CoOccurrence

  /** The full-width opening bracket U+FF08, looked for before the ASCII one. */
  const FullWidthParen: char := '\U{FF08}'

  /** The zero-width space U+200B that `process_ingredient` removes. */
  const ZeroWidthSpace: char := '\U{200B}'

  /** The part-of-speech tag for nouns, 名詞, in MeCab's output. */
  const NounTag: string := "\U{540D}\U{8A5E}"

  /** The text `translate` returns when the translator gives no result. */
  const NotAvailable: string := "Translation not available"

  /** The text `translate` returns when the translator raises. */
  const TranslationError: string := "Translation error"

  /** What the translator call gives: a result object with a text, a falsy result, or an exception. */
  datatype Translation = Translated(text: string) | NoResult | Raised

  /** The value `clean_ingredient` returns. */
  function Cleaned(name: string): string
  {
    if FullWidthParen in name then Strip(Split(name, FullWidthParen)[0])
    else if '(' in name then Strip(Split(name, '(')[0])
    else name
  }

  /**
   * What `clean_ingredient` promises: with a full-width bracket, the
   * stripped part before the first one, even when an ASCII bracket comes
   * earlier; otherwise with an ASCII bracket, the stripped part before the
   * first one; with neither, the name itself, not stripped.
   */
  lemma CleanedCases(name: string)
    ensures FullWidthParen in name ==> Cleaned(name) == Strip(name[..IndexOf(name, FullWidthParen)])
    ensures FullWidthParen !in name && '(' in name ==> Cleaned(name) == Strip(name[..IndexOf(name, '(')])
    ensures FullWidthParen !in name && '(' !in name ==> Cleaned(name) == name
  {
  }

  /**
   * No full-width bracket survives cleaning, and no ASCII one either when
   * the name had no full-width bracket.
   */
  lemma CleanedBrackets(name: string)
    ensures FullWidthParen !in Cleaned(name)
    ensures FullWidthParen !in name ==> '(' !in Cleaned(name)
  {
    if FullWidthParen in name {
      var i := IndexOf(name, FullWidthParen);
      StripWithout(name[..i], FullWidthParen);
    } else if '(' in name {
      var i := IndexOf(name, '(');
      assert forall x :: x in name[..i] ==> x in name;
      StripWithout(name[..i], FullWidthParen);
      StripWithout(name[..i], '(');
    }
  }

  /**
   * The full-width bracket is looked for first, so an ASCII bracket before
   * it survives cleaning: "a(b（c" becomes "a(b".
   */
  lemma CleanedKeepsEarlierParen(name: string)
    requires FullWidthParen in name && '(' in name[..IndexOf(name, FullWidthParen)]
    ensures '(' in Cleaned(name)
  {
    var pre := name[..IndexOf(name, FullWidthParen)];
    CleanedCases(name);
    var k :| 0 <= k < |pre| && pre[k] == '(';
    StripKeeps(pre, k);
  }

  /** `clean_ingredient`: the loop over the two brackets with its early return. */
  method CleanIngredient(ingredient: string) returns (r: string)
    ensures r == Cleaned(ingredient)
  {
    var brackets := [FullWidthParen, '('];
    for k := 0 to |brackets|
      invariant 0 < k ==> FullWidthParen !in ingredient
      invariant 1 < k ==> '(' !in ingredient
    {
      var bracket := brackets[k];
      assert bracket == if k == 0 then FullWidthParen else '(';
      if bracket in ingredient {
        return Strip(Split(ingredient, bracket)[0]);
      }
    }
    return ingredient;
  }

  /** The first tab-separated field of a line MeCab tagged as a noun, when it is not empty. */
  function NounOf(line: string): seq<string>
  {
    var field := Split(line, '\t')[0];
    if Contains(line, NounTag) && field != [] then [field] else []
  }

  /** The nouns that `mecab_parse` collects from the tagger's output lines, in line order. */
  function Nouns(lines: seq<string>): (ns: seq<string>)
    ensures |ns| <= |lines|
    ensures forall k :: 0 <= k < |ns| ==> ns[k] != [] && '\t' !in ns[k]
  {
    if lines == [] then [] else Nouns(lines[..|lines| - 1]) + NounOf(lines[|lines| - 1])
  }

  /** `x` is the non-empty first tab-separated field of `line`, and `line` is a noun line. */
  predicate NounLine(line: string, x: string)
  {
    Contains(line, NounTag) && x == Split(line, '\t')[0] && x != []
  }

  /** One more line contributes its noun, if any. */
  lemma NounsSnoc(lines: seq<string>, k: nat)
    requires k < |lines|
    ensures Nouns(lines[..k + 1]) == Nouns(lines[..k]) + NounOf(lines[k])
  {
    assert lines[..k + 1][..k] == lines[..k];
  }

  /** A line yields `x` exactly when it is a noun line whose non-empty first field is `x`. */
  lemma NounOfMember(line: string, x: string)
    ensures x in NounOf(line) <==> NounLine(line, x)
  {
  }

  /** A word is collected exactly when some line yields it: no word is lost, none invented. */
  lemma {:induction false} NounsMember(lines: seq<string>, x: string)
    ensures x in Nouns(lines) <==> exists k :: 0 <= k < |lines| && x in NounOf(lines[k])
  {
    if lines != [] {
      var last := |lines| - 1;
      var before := lines[..last];
      NounsMember(before, x);
      NounsSnoc(lines, last);
      assert lines[..last + 1] == lines;
      assert x in Nouns(lines) <==> x in Nouns(before) || x in NounOf(lines[last]);
      if x in Nouns(before) {
        var k :| 0 <= k < last && x in NounOf(before[k]);
        assert lines[k] == before[k];
      }
      if exists k :: 0 <= k < |lines| && x in NounOf(lines[k]) {
        var k :| 0 <= k < |lines| && x in NounOf(lines[k]);
        if k < last {
          assert before[k] == lines[k];
        }
      }
    }
  }

  /** Collecting over two runs of lines is collecting over each in turn. */
  lemma {:induction false} NounsAppend(a: seq<string>, b: seq<string>)
    ensures Nouns(a + b) == Nouns(a) + Nouns(b)
    decreases |b|
  {
    if b == [] {
      assert a + b == a;
    } else {
      var last := |b| - 1;
      assert (a + b)[..|a + b| - 1] == a + b[..last];
      NounsAppend(a, b[..last]);
    }
  }

  /** The text `mecab_parse` returns for tagger output `node`. */
  function MecabOutput(node: string): string
  {
    Join(" ", Nouns(Split(node, '\n')))
  }

  /** `mecab_parse`: tag the text, keep the noun lines' first fields, join them with spaces. */
  method MecabParse(text: string, tagger: string -> string) returns (r: string)
    ensures r == MecabOutput(tagger(text))
  {
    var node := tagger(text);
    var lines := Split(node, '\n');
    var nouns: seq<string> := [];
    for k := 0 to |lines|
      invariant nouns == Nouns(lines[..k])
    {
      NounsSnoc(lines, k);
      var line := lines[k];
      if Contains(line, NounTag) {
        var noun := Split(line, '\t')[0];
        if noun != [] {
          nouns := nouns + [noun];
        }
      }
    }
    assert lines[..|lines|] == lines;
    r := Join(" ", nouns);
  }

  /** `translate`: the result's text, or a fixed message when there is no result or the call raised. */
  function Translate(text: string, translator: string -> Translation): (r: string)
    ensures translator(text).Translated? ==> r == translator(text).text
    ensures translator(text) == NoResult ==> r == NotAvailable
    ensures translator(text) == Raised ==> r == TranslationError
  {
    match translator(text)
    case Translated(t) => t
    case NoResult => NotAvailable
    case Raised => TranslationError
  }

  /**
   * The last two steps of `process_ingredient`, lower-casing and dropping
   * U+200B: the result holds no zero-width space and no upper-case ASCII
   * letter.
   */
  function Normalise(translated: string): (r: string)
    ensures ZeroWidthSpace !in r
    ensures forall k :: 0 <= k < |r| ==> !('A' <= r[k] <= 'Z')
    ensures forall x :: x != ZeroWidthSpace ==> multiset(r)[x] == multiset(Lower(translated))[x]
    ensures forall x :: x != ZeroWidthSpace && !('A' <= x <= 'Z') && !('a' <= x <= 'z') ==> multiset(r)[x] == multiset(translated)[x]
  {
    var lowered := Lower(translated);
    var r := RemoveChar(lowered, ZeroWidthSpace);
    LowerKeepsOthers(translated);
    RemoveCharKeepsOthers(lowered, ZeroWidthSpace);
    assert forall k :: 0 <= k < |r| ==> !('A' <= r[k] <= 'Z') by {
      forall k | 0 <= k < |r| ensures !('A' <= r[k] <= 'Z') {
        RemoveCharSubset(lowered, ZeroWidthSpace, r[k]);
      }
    }
    r
  }

  /** `process_ingredient`: tag, translate, then normalise. */
  function ProcessIngredient(name: string, tagger: string -> string, translator: string -> Translation): (r: string)
    ensures ZeroWidthSpace !in r
    ensures forall k :: 0 <= k < |r| ==> !('A' <= r[k] <= 'Z')
    ensures translator(MecabOutput(tagger(name))).Translated? ==>
      forall x :: x != ZeroWidthSpace && !('A' <= x <= 'Z') && !('a' <= x <= 'z') ==>
        multiset(r)[x] == multiset(translator(MecabOutput(tagger(name))).text)[x]
  {
    Normalise(Translate(MecabOutput(tagger(name)), translator))
  }

  /**
   * A failed translation is not dropped: the ingredient is named after the
   * lower-cased message, whatever the name was.
   */
  lemma FailedTranslationNames(name: string, tagger: string -> string, translator: string -> Translation)
    requires !translator(MecabOutput(tagger(name))).Translated?
    ensures ProcessIngredient(name, tagger, translator) ==
      Lower(if translator(MecabOutput(tagger(name))) == NoResult then NotAvailable else TranslationError)
  {
    MessagesWithoutSpace();
    NormaliseWithoutSpace(Translate(MecabOutput(tagger(name)), translator));
  }

  /** Neither fixed message holds a zero-width space. */
  lemma MessagesWithoutSpace()
    ensures ZeroWidthSpace !in NotAvailable && ZeroWidthSpace !in TranslationError
  {
  }

  /** Text without a zero-width space is only lower-cased. */
  lemma NormaliseWithoutSpace(t: string)
    requires ZeroWidthSpace !in t
    ensures Normalise(t) == Lower(t)
  {
    assert ZeroWidthSpace !in Lower(t);
  }

  /** The entry one ingredient contributes: none when its cleaned name is empty. */
  function Entry(e: Ingredient, clean: string -> string, process: string -> string): seq<Ingredient>
  {
    var cleaned := clean(e.name);
    if cleaned != [] then [Ingredient(process(cleaned), e.quantity)] else []
  }

  /**
   * The loop of `translate_given_ingredients` for a cleaning step `clean`
   * and a processing step `process`, entry by entry in input order.
   */
  function KeepProcessed(ingredients: Recipe, clean: string -> string, process: string -> string): Recipe
  {
    if ingredients == [] then []
    else
      var last := |ingredients| - 1;
      KeepProcessed(ingredients[..last], clean, process) + Entry(ingredients[last], clean, process)
  }

  /** One more ingredient contributes its entry, if any. */
  lemma KeepProcessedSnoc(ingredients: Recipe, k: nat, clean: string -> string, process: string -> string)
    requires k < |ingredients|
    ensures KeepProcessed(ingredients[..k + 1], clean, process)
         == KeepProcessed(ingredients[..k], clean, process) + Entry(ingredients[k], clean, process)
  {
    assert ingredients[..k + 1][..k] == ingredients[..k];
  }

  /** `process_ingredient` with the tagger and the translator fixed. */
  function ProcessStep(tagger: string -> string, translator: string -> Translation): string -> string
  {
    name => ProcessIngredient(name, tagger, translator)
  }

  /** The list `translate_given_ingredients` returns. */
  function TranslatedIngredients(ingredients: Recipe, tagger: string -> string, translator: string -> Translation): Recipe
  {
    KeepProcessed(ingredients, Cleaned, ProcessStep(tagger, translator))
  }

  /** One pass of the loop of `translate_given_ingredients`. */
  method TranslateEntry(e: Ingredient, tagger: string -> string, translator: string -> Translation)
    returns (entry: seq<Ingredient>)
    ensures entry == Entry(e, Cleaned, ProcessStep(tagger, translator))
  {
    var cleaned := CleanIngredient(e.name);
    if cleaned != [] {
      var translated := ProcessIngredient(cleaned, tagger, translator);
      entry := [Ingredient(translated, e.quantity)];
    } else {
      entry := [];
    }
  }

  /** `translate_given_ingredients`: the loop that appends each kept, processed entry. */
  method TranslateGivenIngredients(ingredients: Recipe, tagger: string -> string, translator: string -> Translation)
    returns (r: Recipe)
    ensures r == TranslatedIngredients(ingredients, tagger, translator)
  {
    r := [];
    for k := 0 to |ingredients|
      invariant r == KeepProcessed(ingredients[..k], Cleaned, ProcessStep(tagger, translator))
    {
      KeepProcessedSnoc(ingredients, k, Cleaned, ProcessStep(tagger, translator));
      var entry := TranslateEntry(ingredients[k], tagger, translator);
      r := r + entry;
    }
    assert ingredients[..|ingredients|] == ingredients;
  }

  /** Translating two runs of ingredients is translating each in turn: input order is kept. */
  lemma {:induction false} KeepProcessedAppend(a: Recipe, b: Recipe, clean: string -> string, process: string -> string)
    ensures KeepProcessed(a + b, clean, process) == KeepProcessed(a, clean, process) + KeepProcessed(b, clean, process)
    decreases |b|
  {
    if b == [] {
      assert a + b == a;
    } else {
      var last := |b| - 1;
      assert (a + b)[..|a + b| - 1] == a + b[..last];
      KeepProcessedAppend(a, b[..last], clean, process);
    }
  }

  /** `e` is the entry `src` contributes: its cleaned name is not empty, `e` has the processed name and `src`'s quantity. */
  predicate Produces(src: Ingredient, e: Ingredient, clean: string -> string, process: string -> string)
  {
    clean(src.name) != [] && e == Ingredient(process(clean(src.name)), src.quantity)
  }

  /**
   * Exactly the entries with an empty cleaned name are dropped; the others
   * become one entry each, named by their processed name and keeping their
   * own quantity.
   */
  lemma {:induction false} KeepProcessedMember(ingredients: Recipe, clean: string -> string, process: string -> string, e: Ingredient)
    ensures e in KeepProcessed(ingredients, clean, process) <==>
      exists k :: 0 <= k < |ingredients| && Produces(ingredients[k], e, clean, process)
  {
    if ingredients != [] {
      var last := |ingredients| - 1;
      var before := ingredients[..last];
      KeepProcessedMember(before, clean, process, e);
      if e in KeepProcessed(before, clean, process) {
        var k :| 0 <= k < last && Produces(before[k], e, clean, process);
        assert ingredients[k] == before[k];
      }
      if exists k :: 0 <= k < |ingredients| && Produces(ingredients[k], e, clean, process) {
        var k :| 0 <= k < |ingredients| && Produces(ingredients[k], e, clean, process);
        if k < last {
          assert before[k] == ingredients[k];
        }
      }
    }
  }

  /** Translation never lengthens the list: each ingredient gives at most one entry. */
  lemma {:induction false} KeepProcessedLength(ingredients: Recipe, clean: string -> string, process: string -> string)
    ensures |KeepProcessed(ingredients, clean, process)| <= |ingredients|
  {
    if ingredients != [] {
      KeepProcessedLength(ingredients[..|ingredients| - 1], clean, process);
    }
  }

  /**
   * For the real steps: an ingredient yields an entry exactly when its
   * cleaned name is not empty, and that entry carries the processed
   * cleaned name and the ingredient's quantity.
   */
  lemma TranslatedMember(ingredients: Recipe, tagger: string -> string, translator: string -> Translation, e: Ingredient)
    ensures e in TranslatedIngredients(ingredients, tagger, translator) <==>
      exists k :: 0 <= k < |ingredients| && Cleaned(ingredients[k].name) != []
        && e == Ingredient(ProcessIngredient(Cleaned(ingredients[k].name), tagger, translator), ingredients[k].quantity)
  {
    KeepProcessedMember(ingredients, Cleaned, ProcessStep(tagger, translator), e);
  }
}
