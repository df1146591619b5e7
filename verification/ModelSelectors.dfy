/** Model selectors: parsing `provider/model` and printing it (internal/core/model_selector.go). */
module ModelSelectors {
  import opened Text

  datatype ModelSelector = ModelSelector(model: string, provider: string)

  datatype Parsed = Selector(selector: ModelSelector) | ModelRequired

  datatype Qualified = Qualified(prefix: string, rest: string) | Unqualified

  function QualifiedModel(s: ModelSelector): string {
    if s.provider == "" then s.model else s.provider + "/" + s.model
  }

  /** Position of the first slash, or -1. */
  function FirstSlash(s: string): (i: int)
    ensures -1 <= i < |s|
    ensures i >= 0 ==> s[i] == '/'
    ensures forall j :: 0 <= j < (if i == -1 then |s| else i) ==> s[j] != '/'
  {
    if s == "" then -1
    else if s[0] == '/' then 0
    else
      var i := FirstSlash(s[1..]);
      assert forall j :: 1 <= j < |s| ==> s[j] == s[1..][j - 1];
      if i == -1 then -1 else i + 1
  }

  /** Splits at the first slash; both trimmed parts must be non-empty. */
  function SplitQualifiedModel(model: string): Qualified {
    var i := FirstSlash(model);
    if i == -1 then Unqualified
    else
      var prefix, rest := Trim(model[..i]), Trim(model[i + 1..]);
      if prefix == "" || rest == "" then Unqualified else Qualified(prefix, rest)
  }

  function ParseModelSelector(rawModel: string, rawProvider: string): Parsed {
    var model, provider := Trim(rawModel), Trim(rawProvider);
    if model == "" then ModelRequired
    else
      match SplitQualifiedModel(model)
      case Unqualified => Selector(ModelSelector(model, provider))
      case Qualified(prefix, rest) =>
        if provider == "" then Selector(ModelSelector(rest, prefix))
        else if prefix == provider then Selector(ModelSelector(rest, provider))
        else Selector(ModelSelector(model, provider))
  }

  /** Parsed selectors are trimmed, name a model, and hold no further prefix unless they have
      an explicit provider. */
  lemma ParsedShape(rawModel: string, rawProvider: string)
    ensures var p := ParseModelSelector(rawModel, rawProvider);
      p.Selector? ==>
        && p.selector.model != "" && Trimmed(p.selector.model) && Trimmed(p.selector.provider)
        && (p.selector.provider == "" ==> SplitQualifiedModel(p.selector.model) == Unqualified)
  {
    TrimIsTrimmed(rawModel);
    TrimIsTrimmed(rawProvider);
    var model := Trim(rawModel);
    var i := FirstSlash(model);
    if i >= 0 {
      TrimIsTrimmed(model[..i]);
      TrimIsTrimmed(model[i + 1..]);
    }
  }

  lemma FirstSlashAt(prefix: string, rest: string)
    requires '/' !in prefix
    ensures FirstSlash(prefix + "/" + rest) == |prefix|
  {
    var s := prefix + "/" + rest;
    assert s[|prefix|] == '/';
    assert forall j :: 0 <= j < |prefix| ==> s[j] == prefix[j];
  }

  /** Printing a parsed selector and parsing it again gives it back exactly when its provider
      holds no slash; the model may hold any number of them. */
  lemma ParsePrintParse(rawModel: string, rawProvider: string)
    ensures var p := ParseModelSelector(rawModel, rawProvider);
      p.Selector? ==> (ParseModelSelector(QualifiedModel(p.selector), "") == p <==> '/' !in p.selector.provider)
  {
    var p := ParseModelSelector(rawModel, rawProvider);
    ParsedShape(rawModel, rawProvider);
    if p.Selector? {
      hide ParseModelSelector;
      var model, provider := p.selector.model, p.selector.provider;
      if provider == "" {
        BareModelParses(model);
      } else if '/' !in provider {
        QualifiedParses(provider, model);
      } else {
        SlashInProvider(provider, model);
      }
    }
  }

  lemma BareModelParses(model: string)
    requires model != "" && Trimmed(model) && SplitQualifiedModel(model) == Unqualified
    ensures ParseModelSelector(model, "") == Selector(ModelSelector(model, ""))
  {
    hide Trim, SplitQualifiedModel;
    TrimFixed(model);
    TrimFixed("");
  }

  lemma QualifiedParses(provider: string, model: string)
    requires provider != "" && model != "" && Trimmed(provider) && Trimmed(model) && '/' !in provider
    ensures ParseModelSelector(provider + "/" + model, "") == Selector(ModelSelector(model, provider))
  {
    hide Trim, FirstSlash;
    var text := provider + "/" + model;
    TrimFixed(text);
    TrimFixed(provider);
    TrimFixed(model);
    TrimFixed("");
    FirstSlashAt(provider, model);
    assert text[..|provider|] == provider && text[|provider| + 1..] == model;
  }

  lemma SlashInProvider(provider: string, model: string)
    requires '/' in provider && Trimmed(provider + "/" + model)
    ensures var p := ParseModelSelector(provider + "/" + model, ""); p.Selector? ==> p.selector.provider != provider
  {
    hide FirstSlash;
    var text := provider + "/" + model;
    TrimFixed(text);
    TrimFixed("");
    var j :| 0 <= j < |provider| && provider[j] == '/';
    assert text[j] == '/';
    var i := FirstSlash(text);
    TrimLeftStops(text[..i]);
    TrimRightStops(TrimLeft(text[..i]));
    assert |Trim(text[..i])| < |provider|;
  }

  /** Parsing a parsed pair again changes it exactly when its model still starts with its own
      provider as a prefix, which is stripped only once at a time. */
  lemma ReparseIsIdempotent(rawModel: string, rawProvider: string)
    ensures var p := ParseModelSelector(rawModel, rawProvider);
      p.Selector? ==>
        (ParseModelSelector(p.selector.model, p.selector.provider) == p <==>
         (SplitQualifiedModel(p.selector.model).Qualified? ==>
            SplitQualifiedModel(p.selector.model).prefix != p.selector.provider))
  {
    var p := ParseModelSelector(rawModel, rawProvider);
    if p.Selector? {
      var model := p.selector.model;
      ParsedShape(rawModel, rawProvider);
      TrimFixed(model);
      TrimFixed(p.selector.provider);
      var i := FirstSlash(model);
      if i >= 0 {
        TrimLeftStops(model[i + 1..]);
        TrimRightStops(TrimLeft(model[i + 1..]));
        assert |Trim(model[i + 1..])| < |model|;
      }
    }
  }

  /** An explicit provider with a slash does not survive printing: "a/b" and "m" print as
      "a/b/m", which parses as provider "a" and model "b/m". */
  lemma SlashedProviderIsLost()
    ensures ParseModelSelector("m", "a/b") == Selector(ModelSelector("m", "a/b"))
    ensures ParseModelSelector("a/b/m", "") == Selector(ModelSelector("b/m", "a"))
  {
    TrimFixed("m");
    TrimFixed("a/b");
    assert "a/b/m" == "a" + "/" + "b/m";
    QualifiedParses("a", "b/m");
    assert "m"[1..] == "" && FirstSlash("m") == -1;
  }

  /** One redundant prefix is stripped, whatever stands behind it. */
  lemma StripsOnePrefix(provider: string, rest: string)
    requires provider != "" && rest != "" && Trimmed(provider) && Trimmed(rest) && '/' !in provider
    ensures ParseModelSelector(provider + "/" + rest, provider) == Selector(ModelSelector(rest, provider))
  {
    hide Trim, FirstSlash;
    var text := provider + "/" + rest;
    TrimFixed(text);
    TrimFixed(provider);
    TrimFixed(rest);
    FirstSlashAt(provider, rest);
    assert text[..|provider|] == provider && text[|provider| + 1..] == rest;
  }

  /** Only one redundant prefix is stripped at a time. */
  lemma OnePrefixAtATime()
    ensures ParseModelSelector("p/p/m", "p") == Selector(ModelSelector("p/m", "p"))
    ensures ParseModelSelector("p/m", "p") == Selector(ModelSelector("m", "p"))
  {
    hide ParseModelSelector;
    assert "p" + "/" + "p/m" == "p/p/m" && "p" + "/" + "m" == "p/m";
    StripsOnePrefix("p", "p/m");
    StripsOnePrefix("p", "m");
  }
}
