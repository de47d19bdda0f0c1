/** The dashboard's category list (src/components/dashboard/Categories.tsx).
    It keeps a list of its own, started from the seed categories without
    `todos`; adding, renaming and deleting change that list only, not the
    store state manager's. A category's slug is derived from its name by
    lowering it, turning each run of whitespace into `-`, decomposing it
    (Unicode NFD) and dropping the combining marks U+0300 to U+036F. */
module DashboardCategories {
  import opened Wrappers
  import opened Types
  import Text
  import Collections
  import MockData
  import StoreContext

  /** A combining diacritical mark, U+0300 to U+036F. */
  predicate IsMark(c: char)
  {
    '\U{300}' <= c <= '\U{36F}'
  }

  predicate IsUnmarked(c: char)
  {
    !IsMark(c)
  }

  /** Canonical decomposition of one character, for the precomposed
      Latin-1 small letters: base letter followed by its combining mark
      (grave, acute, circumflex, tilde, diaeresis, ring above, cedilla).
      Every other character is its own decomposition. */
  function Decompose(c: char): (r: string)
    ensures |r| == 1 || |r| == 2
    ensures |r| == 1 ==> r == [c]
    ensures |r| == 2 ==> 'a' <= r[0] <= 'z' && IsMark(r[1])
  {
    match c
    case 'à' => "a\U{300}"
    case 'á' => "a\U{301}"
    case 'â' => "a\U{302}"
    case 'ã' => "a\U{303}"
    case 'ä' => "a\U{308}"
    case 'å' => "a\U{30A}"
    case 'ç' => "c\U{327}"
    case 'è' => "e\U{300}"
    case 'é' => "e\U{301}"
    case 'ê' => "e\U{302}"
    case 'ë' => "e\U{308}"
    case 'ì' => "i\U{300}"
    case 'í' => "i\U{301}"
    case 'î' => "i\U{302}"
    case 'ï' => "i\U{308}"
    case 'ñ' => "n\U{303}"
    case 'ò' => "o\U{300}"
    case 'ó' => "o\U{301}"
    case 'ô' => "o\U{302}"
    case 'õ' => "o\U{303}"
    case 'ö' => "o\U{308}"
    case 'ù' => "u\U{300}"
    case 'ú' => "u\U{301}"
    case 'û' => "u\U{302}"
    case 'ü' => "u\U{308}"
    case 'ý' => "y\U{301}"
    case 'ÿ' => "y\U{308}"
    case _ => [c]
  }

  /** `s.normalize('NFD')`, character by character. */
  function Nfd(s: string): string
  {
    if s == [] then [] else Decompose(s[0]) + Nfd(s[1..])
  }

  /** Decomposition adds nothing but small ASCII letters and combining
      marks to the characters already there. */
  lemma {:induction false} NfdChars(s: string)
    ensures forall d :: d in Nfd(s) ==> d in s || 'a' <= d <= 'z' || IsMark(d)
  {
    if s != [] {
      NfdChars(s[1..]);
      assert Nfd(s) == Decompose(s[0]) + Nfd(s[1..]);
      assert forall d :: d in s[1..] ==> d in s;
    }
  }

  /** `s.replace(/[\u0300-\u036f]/g, '')`. */
  function StripMarks(s: string): string
  {
    Collections.Filter(s, IsUnmarked)
  }

  /** The slug expression of `handleAddCategory` and `handleEditCategory`. */
  function Slug(name: string): string
  {
    StripMarks(Nfd(Text.ReplaceRuns(Text.Lower(name), Text.IsSpace, '-')))
  }

  /** A slug holds no whitespace, no combining mark and no capital. */
  lemma SlugChars(name: string)
    ensures forall c :: c in Slug(name) ==> !Text.IsSpace(c) && !IsMark(c) && !Text.IsUpper(c)
  {
    var lowered := Text.Lower(name);
    var hyphened := Text.ReplaceRuns(lowered, Text.IsSpace, '-');
    var decomposed := Nfd(hyphened);
    Text.LowerHasNoUpper(name);
    Text.ReplaceRunsChars(lowered, Text.IsSpace, '-');
    NfdChars(hyphened);
    Collections.FilterMembers(decomposed, IsUnmarked);
  }

  /** Decomposition of a concatenation decomposes each part. */
  lemma {:induction false} NfdAppend(a: string, b: string)
    ensures Nfd(a + b) == Nfd(a) + Nfd(b)
  {
    if a == [] {
      assert a + b == b;
    } else {
      assert (a + b)[0] == a[0] && (a + b)[1..] == a[1..] + b;
      NfdAppend(a[1..], b);
    }
  }

  /** Text of characters that neither decompose nor are marks comes out of
      the last two steps as it went in. */
  lemma {:induction false} PlainTail(s: string)
    requires forall c :: c in s ==> Decompose(c) == [c] && !IsMark(c)
    ensures Nfd(s) == s && StripMarks(s) == s
  {
    if s != [] {
      assert forall c :: c in s[1..] ==> c in s;
      PlainTail(s[1..]);
      assert s == [s[0]] + s[1..];
    }
    Collections.FilterKeepsAll(s, IsUnmarked);
  }

  /** A name made only of printable ASCII characters other than the space. */
  predicate IsPlainName(name: string)
  {
    forall c :: c in name ==> '!' <= c <= '~'
  }

  /** Lowering a plain name keeps it plain. */
  lemma LowerOfPlain(name: string)
    requires IsPlainName(name)
    ensures IsPlainName(Text.Lower(name))
  {
    forall c | c in Text.Lower(name) ensures '!' <= c <= '~' {
      var i :| 0 <= i < |name| && c == Text.Lower(name)[i];
      assert name[i] in name;
    }
  }

  /** A printable ASCII character other than the space is not whitespace,
      not a mark, and its own decomposition. */
  lemma PlainChar(c: char)
    requires '!' <= c <= '~'
    ensures !Text.IsSpace(c) && !IsMark(c) && Decompose(c) == [c]
  {
  }

  /** A plain lowered name is its own slug tail: no space to replace, nothing
      to decompose and no mark to strip. */
  lemma PlainIsFixed(s: string)
    requires IsPlainName(s)
    ensures Text.ReplaceRuns(s, Text.IsSpace, '-') == s
    ensures Nfd(s) == s && StripMarks(s) == s
  {
    forall c | c in s ensures !Text.IsSpace(c) && !IsMark(c) && Decompose(c) == [c] {
      PlainChar(c);
    }
    Text.ReplaceRunsNone(s, Text.IsSpace, '-');
    PlainTail(s);
  }

  /** A plain name has its lower case as its slug. */
  lemma SlugOfPlain(name: string, lowered: string)
    requires IsPlainName(name) && Text.Lower(name) == lowered
    ensures Slug(name) == lowered
  {
    LowerOfPlain(name);
    PlainIsFixed(lowered);
  }

  /** Lowering two names joined by a space joins their lower cases. */
  lemma LowerJoined(first: string, second: string)
    ensures Text.Lower(first + " " + second) == Text.Lower(first) + " " + Text.Lower(second)
  {
    Text.LowerAppend(first + " ", second);
    Text.LowerAppend(first, " ");
    assert Text.Lower(" ") == " ";
  }

  /** The one space between two plain texts becomes `-`. */
  lemma ReplaceJoined(a: string, b: string)
    requires IsPlainName(a) && IsPlainName(b)
    ensures Text.ReplaceRuns(a + " " + b, Text.IsSpace, '-') == a + "-" + b
  {
    forall c | c in a ensures !Text.IsSpace(c) {
      PlainChar(c);
    }
    if b != [] {
      assert b[0] in b;
      PlainChar(b[0]);
    }
    Text.ReplacePlainThenLone(a, ' ', b, Text.IsSpace, '-');
    PlainIsFixed(b);
  }

  /** Two plain names joined by one space become their lower cases joined
      by `-`. */
  lemma SlugOfJoined(first: string, second: string, a: string, b: string)
    requires IsPlainName(first) && IsPlainName(second)
    requires Text.Lower(first) == a && Text.Lower(second) == b
    ensures Slug(first + " " + second) == a + "-" + b
  {
    LowerJoined(first, second);
    LowerOfPlain(first);
    LowerOfPlain(second);
    ReplaceJoined(a, b);
    assert IsPlainName(a + "-" + b);
    PlainIsFixed(a + "-" + b);
  }

  /** A one-word name: "Sobremesas" has the slug "sobremesas". */
  lemma SlugOfWord(name: string)
    requires name == "Sobremesas"
    ensures Slug(name) == "sobremesas"
  {
    SlugOfPlain(name, "sobremesas");
  }

  /** A two-word name: the space becomes `-`, so "Bolos Especiais" has the
      slug "bolos-especiais". */
  lemma SlugOfTwoWords(name: string)
    requires name == "Bolos Especiais"
    ensures Slug(name) == "bolos-especiais"
  {
    var first, second := "Bolos", "Especiais";
    calc {
      Slug(name);
      { assert name == first + " " + second; }
      Slug(first + " " + second);
      { BolosWord(first); EspeciaisWord(second); SlugOfJoined(first, second, "bolos", "especiais"); }
      "bolos" + "-" + "especiais";
      "bolos-especiais";
    }
  }

  // BolosWord and EspeciaisWord each hold facts about one string literal
  // of the examples, kept apart so that each proof stays small for the
  // solver.

  /** The words of the examples: plain, and their lower cases. */
  lemma BolosWord(w: string)
    requires w == "Bolos"
    ensures IsPlainName(w) && Text.Lower(w) == "bolos"
  {
  }

  lemma EspeciaisWord(w: string)
    requires w == "Especiais"
    ensures IsPlainName(w) && Text.Lower(w) == "especiais"
  {
  }

  /** Names are not trimmed first: the leading space of " Bolos" becomes a
      leading `-`. */
  lemma SlugKeepsEdges(name: string)
    requires name == " Bolos"
    ensures Slug(name) == "-bolos"
  {
    var second := "Bolos";
    calc {
      Slug(name);
      { assert name == [] + " " + second; }
      Slug([] + " " + second);
      { BolosWord(second); SlugOfJoined([], second, [], "bolos"); }
      [] + "-" + "bolos";
      "-bolos";
    }
  }

  /** Names that differ only in case and accents get the same slug:
      "Cafés" and "cafes" both become "cafes". */
  lemma SlugDropsAccents(accented: string, plain: string)
    requires accented == "Caf\U{E9}s" && plain == "cafes"
    ensures Slug(accented) == Slug(plain) == "cafes"
  {
    SlugOfPlain(plain, "cafes");
    AccentedSlug(accented, "caf\U{E9}s");
  }

  /** A plain text has no mark to strip. */
  lemma PlainUnmarked(s: string)
    requires IsPlainName(s)
    ensures StripMarks(s) == s
  {
    Collections.FilterKeepsAll(s, IsUnmarked);
  }

  /** Decomposing one letter after a plain text. */
  lemma NfdAfterPlain(stem: string, letter: char)
    requires IsPlainName(stem)
    ensures Nfd(stem + [letter]) == stem + Decompose(letter)
  {
    NfdAppend(stem, [letter]);
    PlainIsFixed(stem);
    assert Nfd([letter]) == Decompose(letter) + Nfd([]);
  }

  /** Decomposing one letter between two plain texts. */
  lemma NfdAroundLetter(stem: string, letter: char, tail: string)
    requires IsPlainName(stem) && IsPlainName(tail)
    ensures Nfd(stem + [letter] + tail) == stem + Decompose(letter) + tail
  {
    NfdAppend(stem + [letter], tail);
    NfdAfterPlain(stem, letter);
    PlainIsFixed(tail);
  }

  /** Stripping the one mark between two plain texts. */
  lemma StripAroundMark(base: string, mark: char, tail: string)
    requires IsPlainName(base) && IsPlainName(tail) && IsMark(mark)
    ensures StripMarks(base + [mark] + tail) == base + tail
  {
    Collections.FilterAppend(base + [mark], tail, IsUnmarked);
    Collections.FilterAppend(base, [mark], IsUnmarked);
    PlainUnmarked(base);
    PlainUnmarked(tail);
    assert StripMarks([mark]) == [];
  }

  /** One letter that is not whitespace between two plain texts leaves
      nothing for the run replacement to do. */
  lemma ReplaceAroundLetter(stem: string, letter: char, tail: string)
    requires IsPlainName(stem) && IsPlainName(tail) && !Text.IsSpace(letter)
    ensures Text.ReplaceRuns(stem + [letter] + tail, Text.IsSpace, '-') == stem + [letter] + tail
  {
    var s := stem + [letter] + tail;
    forall c | c in s ensures !Text.IsSpace(c) {
      assert c in stem + [letter] || c in tail;
    }
    Text.ReplaceRunsNone(s, Text.IsSpace, '-');
  }

  /** A decomposed letter between two plain texts loses its mark. */
  lemma StripAroundDecomposed(stem: string, letter: char, tail: string)
    requires IsPlainName(stem) && IsPlainName(tail) && |Decompose(letter)| == 2
    ensures StripMarks(stem + Decompose(letter) + tail) == stem + [Decompose(letter)[0]] + tail
  {
    var d := Decompose(letter);
    var base := stem + [d[0]];
    assert stem + d + tail == base + [d[1]] + tail;
    assert IsPlainName(base);
    StripAroundMark(base, d[1], tail);
  }

  /** One decomposable letter between two plain texts comes out of the
      last three stages as its base letter. */
  lemma PipelineAroundLetter(stem: string, letter: char, tail: string)
    requires IsPlainName(stem) && IsPlainName(tail)
    requires !Text.IsSpace(letter) && |Decompose(letter)| == 2
    ensures StripMarks(Nfd(Text.ReplaceRuns(stem + [letter] + tail, Text.IsSpace, '-')))
         == stem + [Decompose(letter)[0]] + tail
  {
    ReplaceAroundLetter(stem, letter, tail);
    NfdAroundLetter(stem, letter, tail);
    StripAroundDecomposed(stem, letter, tail);
  }

  /** The accented half of the example above. */
  lemma AccentedSlug(name: string, lowered: string)
    requires name == "Caf\U{E9}s" && Text.Lower(name) == lowered
    ensures Slug(name) == "cafes"
  {
    var stem, tail := lowered[..3], lowered[4..];
    assert lowered == stem + [lowered[3]] + tail;
    PipelineAroundLetter(stem, lowered[3], tail);
  }

  /** Punctuation is kept, so "Bolo!" and "Bolo?" get different slugs,
      "bolo!" and "bolo?". */
  lemma SlugKeepsPunctuation(a: string, b: string)
    requires a == "Bolo!" && b == "Bolo?"
    ensures Slug(a) == "bolo!" && Slug(b) == "bolo?"
    ensures Slug(a) != Slug(b)
  {
    SlugOfPlain(a, "bolo!");
    SlugOfPlain(b, "bolo?");
    assert "bolo!"[4] != "bolo?"[4];
  }

  predicate IsNotTodos(c: Category)
  {
    c.slug != "todos"
  }

  /** The list the panel starts with: the seed categories other than
      `todos`, in seed order. */
  function InitialCategories(): seq<Category>
  {
    Collections.Filter(MockData.SeedCategories, IsNotTodos)
  }

  lemma InitialCategoriesValue()
    ensures InitialCategories() == MockData.SeedCategories[1..]
    ensures forall c :: c in InitialCategories() ==> c.slug != "todos"
  {
    var seed := MockData.SeedCategories;
    Collections.FilterKeepsAll(seed[1..], IsNotTodos);
    assert seed == [seed[0]] + seed[1..];
    Collections.FilterAppend([seed[0]], seed[1..], IsNotTodos);
  }

  /** The replacement `{ ...cat, name, slug }` of a renamed category. */
  function Renamed(name: string): Category -> Category
  {
    (c: Category) => c.(name := name, slug := Slug(name))
  }

  /** The list after renaming the category with the id. */
  function RenamedCategories(cs: seq<Category>, id: string, name: string): seq<Category>
  {
    Collections.UpdateWhere(cs, StoreContext.CategoryId, id, Renamed(name))
  }

  /** Renaming keeps every id, the length and the order; the categories
      with the id get the new name and its slug, the others stay as they
      were. */
  lemma RenamedCategoriesAt(cs: seq<Category>, id: string, name: string, i: int)
    requires 0 <= i < |cs|
    ensures |RenamedCategories(cs, id, name)| == |cs|
    ensures RenamedCategories(cs, id, name)[i].id == cs[i].id
    ensures cs[i].id == id ==> RenamedCategories(cs, id, name)[i] == Category(id, name, Slug(name))
    ensures cs[i].id != id ==> RenamedCategories(cs, id, name)[i] == cs[i]
  {
  }

  /** The component's state: its category list, the name typed in the
      dialog and the category being edited. */
  class CategoryPanel {
    var categories: seq<Category>
    var newCategoryName: string
    var editingCategory: Option<Category>

    constructor ()
      ensures categories == InitialCategories()
      ensures newCategoryName == "" && editingCategory == None
    {
      categories := InitialCategories();
      newCategoryName := "";
      editingCategory := None;
    }

    /** The name input's `onChange`. */
    method SetNewCategoryName(value: string)
      modifies this
      ensures newCategoryName == value
      ensures categories == old(categories) && editingCategory == old(editingCategory)
    {
      newCategoryName := value;
    }

    /** `handleAddCategory`: a blank name changes nothing; otherwise the
        untrimmed name is appended with its slug under the clock's id and
        the input is cleared. */
    method AddCategory(newId: string)
      modifies this
      ensures editingCategory == old(editingCategory)
      ensures Text.Trim(old(newCategoryName)) == [] ==>
        categories == old(categories) && newCategoryName == old(newCategoryName)
      ensures Text.Trim(old(newCategoryName)) != [] ==>
        && categories == old(categories) + [Category(newId, old(newCategoryName), Slug(old(newCategoryName)))]
        && newCategoryName == ""
    {
      if Text.Trim(newCategoryName) == [] {
        return;
      }
      categories := categories + [Category(newId, newCategoryName, Slug(newCategoryName))];
      newCategoryName := "";
    }

    /** `startEditCategory`: the category becomes the edit target and its
        name fills the input. */
    method StartEditCategory(c: Category)
      modifies this
      ensures editingCategory == Some(c) && newCategoryName == c.name
      ensures categories == old(categories)
    {
      editingCategory := Some(c);
      newCategoryName := c.name;
    }

    /** `handleEditCategory`: without a target or with a blank name nothing
        changes; otherwise the categories with the target's id are renamed
        and the target and the input are cleared. */
    method EditCategory()
      modifies this
      ensures old(editingCategory).None? || Text.Trim(old(newCategoryName)) == [] ==>
        && categories == old(categories)
        && newCategoryName == old(newCategoryName)
        && editingCategory == old(editingCategory)
      ensures old(editingCategory).Some? && Text.Trim(old(newCategoryName)) != [] ==>
        && categories == RenamedCategories(old(categories), old(editingCategory).value.id, old(newCategoryName))
        && newCategoryName == ""
        && editingCategory == None
    {
      if editingCategory.None? || Text.Trim(newCategoryName) == [] {
        return;
      }
      categories := RenamedCategories(categories, editingCategory.value.id, newCategoryName);
      editingCategory := None;
      newCategoryName := "";
    }

    /** `handleDeleteCategory`: every category with the id goes, the rest
        keep their order. */
    method DeleteCategory(id: string)
      modifies this
      ensures categories == StoreContext.DeletedCategories(old(categories), id)
      ensures forall c :: c in categories ==> c in old(categories) && c.id != id
      ensures newCategoryName == old(newCategoryName) && editingCategory == old(editingCategory)
    {
      categories := StoreContext.DeletedCategories(categories, id);
      StoreContext.DeleteCategoryLaws(old(categories), id);
    }
  }
}
