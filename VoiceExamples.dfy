/** The prompts of the count_placeholders tests, counted through the
    general lemmas of Voice. Each prompt is written as the concatenation of
    its pieces, which are parameters fixed by the requires clauses. */
module VoiceExamples {
  import opened Text
  import opened Voice

  // ------------------------------------------------------ the pieces

  lemma UpdateText(x: string)
    requires x == "Update "
    ensures Clean(x) && !IsWordChar(x[|x| - 1])
  {
  }

  lemma AndText(x: string)
    requires x == " and "
    ensures Clean(x) && x != [] && !IsWordChar(x[|x| - 1])
  {
  }

  lemma VerbTexts(a: string, b: string)
    requires a == "Fix " && b == "Check "
    ensures Clean(a) && Clean(b)
  {
  }

  lemma TailTexts(a: string, b: string)
    requires a == " files" && b == "text"
    ensures Clean(a) && Clean(b)
  {
  }

  lemma ConfigText(x: string)
    requires x == "Update the config file"
    ensures Clean(x)
  {
  }

  lemma FeatureText(x: string)
    requires x == "Add new feature"
    ensures Clean(x)
  {
  }

  lemma SquareText(f: string)
    requires f == "[placeholder]"
    ensures Lower(f) == Form(SquarePlaceholder, "")
  {
  }

  lemma AngleText(f: string)
    requires f == "<placeholder>"
    ensures Lower(f) == Form(AnglePlaceholder, "")
  {
  }

  lemma CurlyText(f: string)
    requires f == "{placeholder}"
    ensures Lower(f) == Form(CurlyPlaceholder, "")
  {
  }

  lemma MixedCaseSquareText(f: string)
    requires f == "[PlaceHolder]"
    ensures Lower(f) == Form(SquarePlaceholder, "")
  {
  }

  lemma WordText(w: string)
    requires w == "placeholder" || w == "PLACEHOLDER"
    ensures Lower(w) == "placeholder"
  {
  }

  // ------------------------------------------------------ the tests

  /** "Update [placeholder]", "Fix <placeholder>", "Check {placeholder}"
      and "Update placeholder" count one each. */
  lemma SinglePlaceholders(u: string, fix: string, check: string, sq: string, an: string, cu: string, w: string)
    requires u == "Update " && fix == "Fix " && check == "Check "
    requires sq == "[placeholder]" && an == "<placeholder>" && cu == "{placeholder}" && w == "placeholder"
    ensures PlaceholderCount(u + sq) == 1
    ensures PlaceholderCount(fix + an) == 1
    ensures PlaceholderCount(check + cu) == 1
    ensures PlaceholderCount(u + w) == 1
  {
    UpdateText(u);
    VerbTexts(fix, check);
    SquareText(sq);
    AngleText(an);
    CurlyText(cu);
    WordText(w);
    OneForm(u, sq, "", SquarePlaceholder);
    OneForm(fix, an, "", AnglePlaceholder);
    OneForm(check, cu, "", CurlyPlaceholder);
    assert u + sq + "" == u + sq && fix + an + "" == fix + an && check + cu + "" == check + cu;
    OneWord(u, w);
  }

  /** "Update [placeholder] and <placeholder> files" counts two. */
  lemma MultiplePlaceholders(u: string, sq: string, and: string, an: string, files: string)
    requires u == "Update " && sq == "[placeholder]" && and == " and " && an == "<placeholder>" && files == " files"
    ensures PlaceholderCount(u + sq + and + an + files) == 2
  {
    UpdateText(u);
    SquareText(sq);
    AndText(and);
    AngleText(an);
    TailTexts(files, "text");
    TwoForms(u, sq, and, an, files, SquarePlaceholder, AnglePlaceholder);
  }

  /** "Update the config file" and "Add new feature" count none. */
  lemma NoPlaceholders(a: string, b: string)
    requires a == "Update the config file" && b == "Add new feature"
    ensures PlaceholderCount(a) == 0 && PlaceholderCount(b) == 0
  {
    ConfigText(a);
    FeatureText(b);
    CleanCountsNothing(a);
    CleanCountsNothing(b);
  }

  /** "Update PLACEHOLDER" and "Update [PlaceHolder]" count one each. */
  lemma CaseInsensitive(u: string, w: string, f: string)
    requires u == "Update " && w == "PLACEHOLDER" && f == "[PlaceHolder]"
    ensures PlaceholderCount(u + w) == 1 && PlaceholderCount(u + f) == 1
  {
    UpdateText(u);
    WordText(w);
    MixedCaseSquareText(f);
    OneWord(u, w);
    OneForm(u, f, "", SquarePlaceholder);
    assert u + f + "" == u + f;
  }

  /** "[placeholder]", "<placeholder>" and "{placeholder}" count one each:
      the word inside the brackets is not counted again. */
  lemma NoDoubleCounting(sq: string, an: string, cu: string)
    requires sq == "[placeholder]" && an == "<placeholder>" && cu == "{placeholder}"
    ensures PlaceholderCount(sq) == 1 && PlaceholderCount(an) == 1 && PlaceholderCount(cu) == 1
  {
    SquareText(sq);
    AngleText(an);
    CurlyText(cu);
    FormAlone(sq, SquarePlaceholder);
    FormAlone(an, AnglePlaceholder);
    FormAlone(cu, CurlyPlaceholder);
  }

  /** "Update [placeholder] and {placeholder} and placeholder" counts
      three. */
  lemma MixedFormats(u: string, sq: string, and: string, cu: string, w: string)
    requires u == "Update " && sq == "[placeholder]" && and == " and " && cu == "{placeholder}" && w == "placeholder"
    ensures PlaceholderCount(u + sq + and + cu + and + w) == 3
  {
    UpdateText(u);
    SquareText(sq);
    AndText(and);
    CurlyText(cu);
    WordText(w);
    TwoFormsAndWord(u, sq, and, cu, and, w, SquarePlaceholder, CurlyPlaceholder);
  }

  /** "[placeholder]text" and "text[placeholder]" count one each. */
  lemma AdjacentText(sq: string, t: string)
    requires sq == "[placeholder]" && t == "text"
    ensures PlaceholderCount(sq + t) == 1 && PlaceholderCount(t + sq) == 1
  {
    SquareText(sq);
    TailTexts(" files", t);
    OneForm("", sq, t, SquarePlaceholder);
    OneForm(t, sq, "", SquarePlaceholder);
    assert "" + sq + t == sq + t && t + sq + "" == t + sq;
  }
}
