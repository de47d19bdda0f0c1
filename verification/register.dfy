/** The sign-up page (src/pages/Register.tsx): its form state, the store
    address derived from the store name as the user types it, and the
    password confirmation check of the submit. */
module Register {
  import Text
  import Collections

  /** `\w` without the `u` flag: ASCII letters, digits and the underscore. */
  predicate IsWordChar(c: char)
  {
    'a' <= c <= 'z' || 'A' <= c <= 'Z' || '0' <= c <= '9' || c == '_'
  }

  predicate IsHyphen(c: char)
  {
    c == '-'
  }

  /** The characters `[^\w\s-]` does not match, which the second step
      keeps. */
  predicate IsSlugSourceChar(c: char)
  {
    IsWordChar(c) || Text.IsSpace(c) || IsHyphen(c)
  }

  /** The characters a store address can hold. */
  predicate IsSlugChar(c: char)
  {
    'a' <= c <= 'z' || '0' <= c <= '9' || c == '_' || c == '-'
  }

  /** Address shape: only address characters, and never two `-` in a row. */
  predicate InAddressShape(s: string)
  {
    && (forall c :: c in s ==> IsSlugChar(c))
    && (forall i :: 0 <= i < |s| - 1 && s[i] == '-' ==> s[i + 1] != '-')
  }

  /** The first four steps of the address expression: lower-case, drop
      every character that is not a word character, whitespace or `-`,
      turn each run of whitespace into `-`, and collapse each run of `-`.
      What comes out is already in address shape. */
  function Collapsed(value: string): (r: string)
    ensures forall c :: c in r ==> IsSlugChar(c)
    ensures forall i :: 0 <= i < |r| - 1 && r[i] == '-' ==> r[i + 1] != '-'
  {
    var lowered := Text.Lower(value);
    var kept := Collections.Filter(lowered, IsSlugSourceChar);
    var spaced := Text.ReplaceRuns(kept, Text.IsSpace, '-');
    var r := Text.ReplaceRuns(spaced, IsHyphen, '-');
    Text.LowerHasNoUpper(value);
    Collections.FilterMembers(lowered, IsSlugSourceChar);
    Text.ReplaceRunsChars(kept, Text.IsSpace, '-');
    Text.ReplaceRunsChars(spaced, IsHyphen, '-');
    Text.ReplaceRunsSeparated(spaced, IsHyphen, '-');
    r
  }

  /** The address expression of `handleInputChange`: the four steps above,
      then a trim. */
  function Slugify(value: string): string
  {
    Text.Trim(Collapsed(value))
  }

  /** The trim at the end of the pipeline has nothing to remove. */
  lemma SlugifyIsCollapsed(value: string)
    ensures Slugify(value) == Collapsed(value)
  {
    Text.TrimWithoutSpace(Collapsed(value));
  }

  /** An address holds only lower-case ASCII letters, digits, `_` and `-`,
      so no whitespace and no capital, and never two `-` in a row. */
  lemma SlugifyShape(value: string)
    ensures forall c :: c in Slugify(value) ==> IsSlugChar(c) && !Text.IsSpace(c) && !Text.IsUpper(c)
    ensures forall i :: 0 <= i < |Slugify(value)| - 1 && Slugify(value)[i] == '-' ==> Slugify(value)[i + 1] != '-'
  {
    SlugifyIsCollapsed(value);
  }

  /** Text that already has the shape of an address goes through every
      step unchanged. */
  lemma {:induction false} SlugifyFixed(s: string)
    requires forall c :: c in s ==> IsSlugChar(c)
    requires forall i :: 0 <= i < |s| - 1 && s[i] == '-' ==> s[i + 1] != '-'
    ensures Slugify(s) == s
  {
    Text.LowerOfLower(s);
    Collections.FilterKeepsAll(s, IsSlugSourceChar);
    assert forall c :: c in s ==> !Text.IsSpace(c);
    Text.ReplaceRunsNone(s, Text.IsSpace, '-');
    HyphenRunsFixed(s);
    Text.TrimWithoutSpace(s);
    assert Collapsed(s) == s;
  }

  /** Text in address shape has no run of `-` to collapse. */
  lemma HyphenRunsFixed(s: string)
    requires InAddressShape(s)
    ensures Text.ReplaceRuns(s, IsHyphen, '-') == s
  {
    Text.ReplaceRunsFixed(s, IsHyphen, '-');
  }

  /** Deriving the address of an address gives it back. */
  lemma SlugifyIdempotent(value: string)
    ensures Slugify(Slugify(value)) == Slugify(value)
  {
    SlugifyShape(value);
    SlugifyFixed(Slugify(value));
  }

  /** Lower-case ASCII letters: the words of the examples below. */
  predicate IsLowerWord(w: string)
  {
    forall c :: c in w ==> 'a' <= c <= 'z'
  }

  /** A lower-case word is its own lower case and is kept whole. */
  lemma LowerWordKept(w: string)
    requires IsLowerWord(w)
    ensures Text.Lower(w) == w
    ensures Collections.Filter(w, IsSlugSourceChar) == w
  {
    Text.LowerOfLower(w);
    Collections.FilterKeepsAll(w, IsSlugSourceChar);
  }

  /** A lower-case word has nothing for the last three steps to do. */
  lemma LowerWordFixed(w: string)
    requires IsLowerWord(w)
    ensures Text.ReplaceRuns(w, Text.IsSpace, '-') == w
    ensures Text.ReplaceRuns(w, IsHyphen, '-') == w
    ensures Text.Trim(w) == w
  {
    Text.ReplaceRunsNone(w, Text.IsSpace, '-');
    Text.ReplaceRunsNone(w, IsHyphen, '-');
    Text.TrimWithoutSpace(w);
  }

  /** When the first three steps give text in address shape, that text is
      the address: the last two steps have nothing to do. */
  lemma SlugifyFromSpaced(value: string, spaced: string)
    requires Text.ReplaceRuns(Collections.Filter(Text.Lower(value), IsSlugSourceChar), Text.IsSpace, '-') == spaced
    requires InAddressShape(spaced)
    ensures Slugify(value) == spaced
  {
    HyphenRunsFixed(spaced);
    Text.TrimWithoutSpace(spaced);
  }

  /** A word, one space, and text that does not start with whitespace: the
      space becomes `-`. */
  lemma WordThenSpace(a: string, rest: string)
    requires IsLowerWord(a) && (rest == [] || !Text.IsSpace(rest[0]))
    ensures Text.ReplaceRuns(a + " " + rest, Text.IsSpace, '-') == a + "-" + Text.ReplaceRuns(rest, Text.IsSpace, '-')
  {
    assert forall x :: x in a ==> !Text.IsSpace(x);
    Text.ReplacePlainThenLone(a, ' ', rest, Text.IsSpace, '-');
  }

  /** Three words with single spaces between them become the same words
      joined by `-`. */
  lemma JoinThreeWords(a: string, b: string, c: string)
    requires IsLowerWord(a) && IsLowerWord(b) && IsLowerWord(c) && b != [] && c != []
    ensures Text.ReplaceRuns(a + " " + b + " " + c, Text.IsSpace, '-') == a + "-" + b + "-" + c
  {
    assert c[0] in c;
    JoinTwoWords(b, c);
    assert b[0] in b;
    assert a + " " + b + " " + c == a + " " + (b + " " + c);
    WordThenSpace(a, b + " " + c);
  }

  lemma JoinTwoWords(b: string, c: string)
    requires IsLowerWord(b) && IsLowerWord(c) && c != []
    ensures Text.ReplaceRuns(b + " " + c, Text.IsSpace, '-') == b + "-" + c
  {
    assert c[0] in c;
    WordThenSpace(b, c);
    LowerWordFixed(c);
  }

  /** A word with one space on each side becomes the word with `-` on each
      side. */
  lemma SpacesAroundWord(w: string)
    requires IsLowerWord(w) && w != []
    ensures Text.ReplaceRuns(" " + w + " ", Text.IsSpace, '-') == "-" + w + "-"
  {
    assert forall c :: c in w ==> !Text.IsSpace(c);
    Text.ReplaceLoneAround(' ', w, Text.IsSpace, '-');
  }

  /** Three words joined by `-` are in address shape. */
  lemma JoinedWordsShape(a: string, b: string, c: string)
    requires IsLowerWord(a) && IsLowerWord(b) && IsLowerWord(c) && b != [] && c != []
    ensures InAddressShape(a + "-" + b + "-" + c)
  {
    var s := a + "-" + b + "-" + c;
    assert forall i :: 0 <= i < |a| ==> s[i] == a[i] && a[i] in a;
    assert forall i :: |a| < i < |a| + 1 + |b| ==> s[i] == b[i - |a| - 1] && b[i - |a| - 1] in b;
    assert forall i :: |a| + 1 + |b| < i < |s| ==> s[i] == c[i - |a| - |b| - 2] && c[i - |a| - |b| - 2] in c;
    assert forall x :: x in s ==> x == '-' || x in a || x in b || x in c;
  }

  /** A name whose first two steps leave three words with single spaces
      between them gets those words joined by `-`. */
  lemma SlugifyThreeWords(value: string, a: string, b: string, c: string)
    requires IsLowerWord(a) && IsLowerWord(b) && IsLowerWord(c) && b != [] && c != []
    requires Collections.Filter(Text.Lower(value), IsSlugSourceChar) == a + " " + b + " " + c
    ensures Slugify(value) == a + "-" + b + "-" + c
  {
    JoinThreeWords(a, b, c);
    JoinedWordsShape(a, b, c);
    SlugifyFromSpaced(value, a + "-" + b + "-" + c);
  }

  /** The filter drops one character it does not keep from between a word
      and text made of letters and spaces. */
  lemma FilterDropsOne(head: string, x: char, tail: string)
    requires IsLowerWord(head) && !IsSlugSourceChar(x)
    requires forall c :: c in tail ==> 'a' <= c <= 'z' || c == ' '
    ensures Collections.Filter(head + [x] + tail, IsSlugSourceChar) == head + tail
  {
    Collections.FilterAppend(head + [x], tail, IsSlugSourceChar);
    Collections.FilterAppend(head, [x], IsSlugSourceChar);
    LowerWordKept(head);
    assert Collections.Filter([x], IsSlugSourceChar) == [];
    Collections.FilterKeepsAll(tail, IsSlugSourceChar);
  }

  /** The store name the seed store goes by gives the address
      "delcia-de-bolos": `\w` is ASCII only, so the accented letter is
      dropped rather than turned into its base letter. */
  lemma SlugifyDropsAccents(value: string, lowered: string)
    requires value == "Del\U{ED}cia de Bolos" && Text.Lower(value) == lowered
    ensures Slugify(value) == "delcia-de-bolos"
  {
    var head, tail := "del", "cia de bolos";
    DeliciaLowered(value, lowered);
    DeliciaSplit(lowered, head, tail);
    DeliciaFiltered(head, tail);
    DeliciaWords(head, tail);
    SlugifyThreeWords(value, "delcia", "de", "bolos");
    DeliciaJoined();
  }

  // The Delicia* lemmas below each hold one fact about the example's
  // string literals. They are kept apart from SlugifyDropsAccents so that
  // each proof stays small for the solver.

  /** The filter drops the accented letter of the example. */
  lemma DeliciaFiltered(head: string, tail: string)
    requires head == "del" && tail == "cia de bolos"
    ensures Collections.Filter(head + ['\U{ED}'] + tail, IsSlugSourceChar) == head + tail
  {
    FilterDropsOne(head, '\U{ED}', tail);
  }

  /** What the filter leaves: three words with single spaces. */
  lemma DeliciaWords(head: string, tail: string)
    requires head == "del" && tail == "cia de bolos"
    ensures head + tail == "delcia" + " " + "de" + " " + "bolos"
  {
  }

  /** The three words joined by `-`. */
  lemma DeliciaJoined()
    ensures "delcia" + "-" + "de" + "-" + "bolos" == "delcia-de-bolos"
  {
  }

  /** The example in lower case. */
  lemma DeliciaLowered(value: string, lowered: string)
    requires value == "Del\U{ED}cia de Bolos" && Text.Lower(value) == lowered
    ensures lowered == "del\U{ED}cia de bolos"
  {
  }

  /** The lowered example around its accented letter. */
  lemma DeliciaSplit(lowered: string, head: string, tail: string)
    requires lowered == "del\U{ED}cia de bolos" && head == "del" && tail == "cia de bolos"
    ensures lowered == head + ['\U{ED}'] + tail
  {
  }

  /** A word with a space on each side, once through the first two steps,
      gives the word with `-` on each side. */
  lemma SlugifySpacedWord(value: string, w: string)
    requires value == " " + w + " " && IsLowerWord(w) && w != []
    ensures Slugify(value) == "-" + w + "-"
  {
    assert forall c :: c in value ==> c == ' ' || c in w;
    WordsKept(value);
    SpacesAroundWord(w);
    HyphensAroundWordShape(w);
    SlugifyFromSpaced(value, "-" + w + "-");
  }

  /** A non-empty word with `-` on each side is in address shape. */
  lemma HyphensAroundWordShape(w: string)
    requires IsLowerWord(w) && w != []
    ensures InAddressShape("-" + w + "-")
  {
    var s := "-" + w + "-";
    assert forall i :: 1 <= i < |s| - 1 ==> s[i] == w[i - 1] && w[i - 1] in w;
    assert forall c :: c in s ==> c == '-' || c in w;
  }

  /** Lower-case ASCII letters and spaces go through the first two steps
      unchanged. */
  lemma WordsKept(s: string)
    requires forall c :: c in s ==> 'a' <= c <= 'z' || c == ' '
    ensures Collections.Filter(Text.Lower(s), IsSlugSourceChar) == s
  {
    Text.LowerOfLower(s);
    Collections.FilterKeepsAll(s, IsSlugSourceChar);
  }

  /** The trim comes last, after every whitespace has become `-`, so a
      name with a space at either end gives an address with `-` there. */
  lemma SlugifyKeepsEdgeHyphens(value: string)
    requires value == " bolos "
    ensures Slugify(value) == "-bolos-"
  {
    var w := value[1..6];
    assert value == " " + w + " ";
    SlugifySpacedWord(value, w);
  }

  /** Punctuation is dropped, so "Bolo!" and "Bolo?" share the address
      "bolo". */
  lemma SlugifyCollides(a: string, b: string)
    requires a == "Bolo!" && b == "Bolo?"
    ensures Slugify(a) == Slugify(b) == "bolo"
  {
    var prefix := a[..4];
    assert a == prefix + [a[4]] && b == prefix + [b[4]];
    assert Text.Lower(prefix) == "bolo";
    DropsLastMark(prefix, a[4], "bolo");
    DropsLastMark(prefix, b[4], "bolo");
  }

  /** A word followed by a character the filter drops gives the word in
      lower case. */
  lemma DropsLastMark(prefix: string, last: char, word: string)
    requires !IsSlugSourceChar(last) && !Text.IsUpper(last)
    requires Text.Lower(prefix) == word && IsLowerWord(word)
    ensures Slugify(prefix + [last]) == word
  {
    Text.LowerAppend(prefix, [last]);
    assert Text.Lower([last]) == [last];
    WordThenDropped(word, last);
    LowerWordFixed(word);
    WordShape(word);
    SlugifyFromSpaced(prefix + [last], word);
  }

  lemma WordThenDropped(word: string, last: char)
    requires IsLowerWord(word) && !IsSlugSourceChar(last)
    ensures Collections.Filter(word + [last], IsSlugSourceChar) == word
  {
    Collections.FilterAppend(word, [last], IsSlugSourceChar);
    assert Collections.Filter([last], IsSlugSourceChar) == [];
    LowerWordKept(word);
  }

  /** A word is in address shape. */
  lemma WordShape(w: string)
    requires IsLowerWord(w)
    ensures InAddressShape(w)
  {
    assert forall i :: 0 <= i < |w| ==> w[i] in w;
  }

  /** The fields of the sign-up form. */
  datatype Field = Name | Email | Password | ConfirmPassword | StoreName | StoreSlug

  datatype RegisterData = RegisterData(
    name: string,
    email: string,
    password: string,
    confirmPassword: string,
    storeName: string,
    storeSlug: string)
  {
    /** The value of one field. */
    function Get(field: Field): string
    {
      match field
      case Name => name
      case Email => email
      case Password => password
      case ConfirmPassword => confirmPassword
      case StoreName => storeName
      case StoreSlug => storeSlug
    }
  }

  /** The form before any input: every field empty. */
  const EmptyForm := RegisterData("", "", "", "", "", "")

  /** The state `handleInputChange` computes: the field gets the value,
      and a new store name also sets the address derived from it. */
  function WithInput(d: RegisterData, field: Field, value: string): (r: RegisterData)
    ensures r.Get(field) == value
    ensures field == StoreName ==> r.storeSlug == Slugify(value)
    ensures forall f :: f != field && !(field == StoreName && f == StoreSlug) ==> r.Get(f) == d.Get(f)
  {
    match field
    case Name => d.(name := value)
    case Email => d.(email := value)
    case Password => d.(password := value)
    case ConfirmPassword => d.(confirmPassword := value)
    case StoreName => d.(storeName := value, storeSlug := Slugify(value))
    case StoreSlug => d.(storeSlug := value)
  }

  /** Typing in the address field stores the text as typed: no address
      rule is applied to it. */
  lemma AddressTypedAsIs(d: RegisterData, value: string)
    ensures WithInput(d, StoreSlug, value).storeSlug == value
    ensures WithInput(d, StoreSlug, value).storeName == d.storeName
  {
  }

  /** Whatever store name is typed, the address it sets is already in
      address shape: typing it again into the address field would not
      change it under the same rule. */
  lemma StoreNameSetsAddress(d: RegisterData, value: string)
    ensures Slugify(WithInput(d, StoreName, value).storeSlug) == WithInput(d, StoreName, value).storeSlug
  {
    SlugifyIdempotent(value);
  }

  /** The outcome of a submit. */
  datatype Outcome = PasswordMismatch | Accepted

  /** The page's state: the form and the loading flag. */
  class RegisterPage {
    var formData: RegisterData
    var isLoading: bool

    constructor ()
      ensures formData == EmptyForm && !isLoading
    {
      formData := EmptyForm;
      isLoading := false;
    }

    /** `handleInputChange`. */
    method HandleInputChange(field: Field, value: string)
      modifies this
      ensures formData == WithInput(old(formData), field, value)
      ensures isLoading == old(isLoading)
    {
      formData := WithInput(formData, field, value);
    }

    /** `handleSubmit`: two passwords that differ stop the submit with an
        error; equal ones let it go on to the simulated account creation.
        Either way the form is left as it was and loading ends. */
    method HandleSubmit() returns (outcome: Outcome)
      modifies this
      ensures outcome == PasswordMismatch <==> formData.password != formData.confirmPassword
      ensures formData == old(formData) && !isLoading
    {
      isLoading := true;
      if formData.password != formData.confirmPassword {
        isLoading := false;
        return PasswordMismatch;
      }
      isLoading := false;
      return Accepted;
    }
  }
}
