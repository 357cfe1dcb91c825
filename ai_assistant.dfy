/**
 * The AI assistant page: its form object and change handler, the
 * condition that disables the generate button, and the extension that
 * `handleSearch` strips from a suggested name before browsing for it,
 * `name.replace(/\.(com|io|net|org|co|app|dev|tech|ai)$/, "")`.
 */
module AIAssistant {
  /** The extensions the pattern's alternation lists, without their dot. */
  const Extensions: seq<string> := ["com", "io", "net", "org", "co", "app", "dev", "tech", "ai"]

  /** The pattern matches at `p`: a '.' there, and the rest of the name is a listed extension. */
  predicate MatchesAt(name: string, p: nat)
  {
    p < |name| && name[p] == '.' && name[p + 1..] in Extensions
  }

  /** The regular-expression search from position `p` on: the leftmost match is cut off with what follows. */
  function StripFrom(name: string, p: nat): (r: string)
    ensures |r| <= |name| && r == name[..|r|]
    decreases |name| - p
  {
    if p >= |name| then name
    else if MatchesAt(name, p) then name[..p]
    else StripFrom(name, p + 1)
  }

  /** The search text `handleSearch` browses for. */
  function StripExtension(name: string): (r: string)
    ensures |r| <= |name| && r == name[..|r|]
  {
    StripFrom(name, 0)
  }

  /** No listed extension contains a '.'. */
  lemma ExtensionsHaveNoDot(ext: string)
    requires ext in Extensions
    ensures '.' !in ext
  {
  }

  /** The pattern can match at most at the last '.', so there is at most one match. */
  lemma MatchIsAtLastDot(name: string, p: nat, q: nat)
    requires MatchesAt(name, p) && p < q < |name|
    ensures name[q] != '.'
  {
    ExtensionsHaveNoDot(name[p + 1..]);
    assert name[q] == name[p + 1..][q - p - 1];
  }

  /** The search returns either the name untouched or the part before the first match from `p` on. */
  lemma {:induction false} StripFromCases(name: string, p: nat)
    ensures StripFrom(name, p) == name <==> forall q | p <= q < |name| :: !MatchesAt(name, q)
    ensures StripFrom(name, p) != name ==>
      exists q | p <= q < |name| :: MatchesAt(name, q) && StripFrom(name, p) == name[..q]
    decreases |name| - p
  {
    if p < |name| && !MatchesAt(name, p) {
      StripFromCases(name, p + 1);
    } else if p < |name| {
      assert |name[..p]| < |name|;
    }
  }

  /** A name ending in '.' and a listed extension loses exactly that suffix. */
  lemma StripsListedExtension(base: string, ext: string)
    requires ext in Extensions
    ensures StripExtension(base + "." + ext) == base
  {
    var name := base + "." + ext;
    assert name[|base| + 1..] == ext;
    assert MatchesAt(name, |base|);
    forall q | 0 <= q < |base| ensures !MatchesAt(name, q) {
      if MatchesAt(name, q) {
        MatchIsAtLastDot(name, q, |base|);
      }
    }
    StripSkips(name, 0, |base|);
    assert name[..|base|] == base;
  }

  /** The search passes over positions where the pattern does not match. */
  lemma {:induction false} StripSkips(name: string, p: nat, q: nat)
    requires p <= q <= |name|
    requires forall i | p <= i < q :: !MatchesAt(name, i)
    ensures StripFrom(name, p) == StripFrom(name, q)
    decreases q - p
  {
    if p < q {
      StripSkips(name, p + 1, q);
    }
  }

  /** A name that does not end in '.' and a listed extension is unchanged. */
  lemma KeepsUnlistedName(name: string)
    requires forall base, ext | ext in Extensions :: name != base + "." + ext
    ensures StripExtension(name) == name
  {
    StripResultIsPrefix(name);
  }

  /** Whatever happens, the result is a prefix of the name, and a shorter one only by a listed suffix. */
  lemma StripResultIsPrefix(name: string)
    ensures |StripExtension(name)| <= |name| && StripExtension(name) == name[..|StripExtension(name)|]
    ensures StripExtension(name) != name ==>
      exists ext | ext in Extensions :: name == StripExtension(name) + "." + ext
  {
    var r := StripExtension(name);
    StripFromCases(name, 0);
    if r != name {
      var q :| 0 <= q < |name| && MatchesAt(name, q) && r == name[..q];
      var ext := name[q + 1..];
      assert ext in Extensions;
      assert name == r + "." + ext;
    }
  }

  /** Only the last extension goes: "a.io.com" becomes "a.io", and "shop.tech" becomes "shop". */
  lemma StripExamples()
    ensures StripExtension("a.io.com") == "a.io"
    ensures StripExtension("shop.tech") == "shop"
  {
    StripsListedExtension("a.io", "com");
    assert "a.io" + "." + "com" == "a.io.com";
    StripsListedExtension("shop", "tech");
    assert "shop" + "." + "tech" == "shop.tech";
  }

  /** The keys of the assistant's form object. */
  datatype AIField = BusinessType | Keywords | Industry | Tone | Length | Extension

  /** Every field of the form is present. */
  predicate Complete(form: map<AIField, string>)
  {
    && BusinessType in form && Keywords in form && Industry in form
    && Tone in form && Length in form && Extension in form
  }

  /** The form before any input: every field empty. */
  function InitialForm(): (form: map<AIField, string>)
    ensures Complete(form)
    ensures form[BusinessType] == "" && form[Keywords] == "" && form[Industry] == ""
    ensures form[Tone] == "" && form[Length] == "" && form[Extension] == ""
  {
    map[BusinessType := "", Keywords := "", Industry := "", Tone := "", Length := "", Extension := ""]
  }

  /** `loading || !formData.businessType || !formData.keywords`. */
  function Disabled(loading: bool, form: map<AIField, string>): (disabled: bool)
    requires Complete(form)
  {
    loading || form[BusinessType] == "" || form[Keywords] == ""
  }

  class AssistantView {
    var formData: map<AIField, string>
    var loading: bool

    ghost predicate Valid()
      reads this
    {
      Complete(formData)
    }

    constructor ()
      ensures Valid() && formData == InitialForm() && !loading
    {
      formData := InitialForm();
      loading := false;
    }

    /** `handleInputChange(field, value)`: only the named field changes. */
    method HandleInputChange(field: AIField, value: string)
      requires Valid()
      modifies this
      ensures Valid()
      ensures formData == old(formData)[field := value] && loading == old(loading)
    {
      formData := formData[field := value];
    }

    /** The generate button's `disabled` attribute. */
    function GenerateDisabled(): (disabled: bool)
      requires Valid()
      reads this
    {
      Disabled(loading, formData)
    }
  }

  /** The untouched form keeps the button disabled. */
  lemma InitiallyDisabled(loading: bool)
    ensures Disabled(loading, InitialForm())
  {
  }

  /**
   * The button is enabled exactly when nothing is loading and both the
   * business type and the keywords are filled in; the other four fields
   * never matter.
   */
  lemma DisabledOnlyByTwoFields(loading: bool, form: map<AIField, string>, field: AIField, value: string)
    requires Complete(form)
    ensures !Disabled(loading, form) <==> !loading && form[BusinessType] != "" && form[Keywords] != ""
    ensures field != BusinessType && field != Keywords ==>
      Disabled(loading, form[field := value]) == Disabled(loading, form)
  {
  }
}
