/** Display labels: the symbol shown for a currency code and the French name shown for
    a sector, each a fixed table with an explicit fallback. */
module Labels {

  import opened Wrappers

  const CurrencySymbols: map<string, string> := map[
    "USD" := "$",
    "EUR" := "€",
    "GBP" := "£",
    "JPY" := "¥",
    "CNY" := "¥",
    "CHF" := "CHF",
    "CAD" := "C$"
  ]

  /** `get_currency_symbol`: "AUD" for a missing or empty code, the symbol of a listed code,
      and any other code unchanged. */
  function CurrencySymbol(code: Option<string>): (r: string)
    ensures code.None? || code == Some("") ==> r == "AUD"
    ensures code.Some? && code.value in CurrencySymbols ==> r == CurrencySymbols[code.value]
    ensures code.Some? && code.value != "" && code.value !in CurrencySymbols ==> r == code.value
  {
    match code
    case None => "AUD"
    case Some(c) =>
      if c == "" then "AUD"
      else if c in CurrencySymbols then CurrencySymbols[c] else c
  }

  /** The listed codes and their symbols; CHF is shown as itself. */
  lemma CurrencyTable()
    ensures CurrencySymbol(Some("USD")) == "$" && CurrencySymbol(Some("EUR")) == "€"
    ensures CurrencySymbol(Some("GBP")) == "£" && CurrencySymbol(Some("JPY")) == "¥"
    ensures CurrencySymbol(Some("CNY")) == "¥" && CurrencySymbol(Some("CHF")) == "CHF"
    ensures CurrencySymbol(Some("CAD")) == "C$"
    ensures CurrencySymbol(Some("AUD")) == "AUD" && CurrencySymbol(Some("SEK")) == "SEK"
  {
  }

  /** Applying the lookup to its own output changes nothing: the only symbol that is also a
      code is "CHF", which maps to itself, and the "AUD" fallback is not a listed code. */
  lemma CurrencySymbolIdempotent(code: Option<string>)
    ensures CurrencySymbol(Some(CurrencySymbol(code))) == CurrencySymbol(code)
  {
    var r := CurrencySymbol(code);
    assert r != "";
    assert r in CurrencySymbols ==> r == "CHF";
  }

  const SectorNames: map<string, string> := map[
    "Technology" := "Technologie",
    "Financial Services" := "Finance",
    "Healthcare" := "Santé",
    "Consumer Cyclical" := "Consommation Cyclique",
    "Consumer Defensive" := "Consommation de base",
    "Industrials" := "Industrie",
    "Communication Services" := "Communication",
    "Energy" := "Énergie",
    "Real Estate" := "Immobilier",
    "Basic Materials" := "Matériaux Base",
    "Utilities" := "Services Publics"
  ]

  /** `translate_sector`: "Non défini" for a missing, empty or "Indéfini" sector, the French
      name of a listed sector, and any other name unchanged. */
  function TranslateSector(sector: Option<string>): (r: string)
    ensures sector.None? || sector == Some("") || sector == Some("Indéfini") ==> r == "Non défini"
    ensures sector.Some? && sector.value in SectorNames ==> r == SectorNames[sector.value]
    ensures sector.Some? && sector.value !in {"", "Indéfini"} && sector.value !in SectorNames ==> r == sector.value
  {
    match sector
    case None => "Non défini"
    case Some(s) =>
      if s == "" || s == "Indéfini" then "Non défini"
      else if s in SectorNames then SectorNames[s] else s
  }

  /** Translating twice is translating once: no French name is a listed sector or the
      "Indéfini" sentinel, and the fallback "Non défini" is neither. */
  lemma TranslateSectorIdempotent(sector: Option<string>)
    ensures TranslateSector(Some(TranslateSector(sector))) == TranslateSector(sector)
  {
    var r := TranslateSector(sector);
    assert r != "" && r != "Indéfini";
    assert r !in SectorNames;
  }
}
