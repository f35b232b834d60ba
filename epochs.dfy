/** The epoch table of app/lib/art/epochs.ts and its two lookups. */
module EpochTable {
  import opened Wrappers
  import opened Seqs
  import opened Types

  const Renaissance: Epoch := Epoch(
    "renaissance", "Renaissance", 1400, 1600,
    "The rebirth of classical learning and artistic achievement",
    ["Leonardo da Vinci", "Michelangelo", "Raphael", "Botticelli"],
    ["Italian Renaissance", "Northern Renaissance"],
    "A period of renewed interest in classical antiquity, humanism, and scientific discovery",
    None, Some("#8B4513"), None)

  const Baroque: Epoch := Epoch(
    "baroque", "Baroque", 1600, 1750,
    "Dramatic, emotional, and ornate artistic expression",
    ["Caravaggio", "Rembrandt", "Rubens", "Vermeer"],
    ["Italian Baroque", "Dutch Golden Age"],
    "A time of religious conflict, scientific revolution, and absolute monarchy",
    None, Some("#4A4A4A"), None)

  const Impressionism: Epoch := Epoch(
    "impressionism", "Impressionism", 1860, 1890,
    "Capturing the fleeting effects of light and color",
    ["Monet", "Renoir", "Degas", "Pissarro"],
    ["French Impressionism", "Post-Impressionism"],
    "Modern urban life, leisure, and the changing landscape of industrial Europe",
    None, Some("#87CEEB"), None)

  const Modernism: Epoch := Epoch(
    "modernism", "Modernism", 1890, 1970,
    "Breaking from tradition, exploring new forms and perspectives",
    ["Matisse", "Picasso", "Rothko", "Pollock"],
    ["Fauvism", "Cubism", "Abstract Expressionism", "Color Field"],
    "Rapid industrialization, world wars, and the search for new meaning in art",
    None, Some("#FF6347"), None)

  const Contemporary: Epoch := Epoch(
    "contemporary", "Contemporary", 1970, 2024,
    "Diverse artistic practices reflecting our complex world",
    ["Banksy", "Ai Weiwei", "Yayoi Kusama", "Damien Hirst"],
    ["Conceptual Art", "Street Art", "Digital Art", "Installation Art"],
    "Globalization, digital revolution, and questioning of traditional art forms",
    None, Some("#9370DB"), None)

  /** The table, in its source order. */
  const Epochs: seq<Epoch> := [Renaissance, Baroque, Impressionism, Modernism, Contemporary]

  function EpochIdIs(id: string): Epoch -> bool {
    (e: Epoch) => e.id == id
  }

  /** Both bounds inclusive. */
  function CoversYear(year: int): Epoch -> bool {
    (e: Epoch) => year >= e.startYear && year <= e.endYear
  }

  /** getEpochById: the first epoch of the table with that id, if any. */
  function GetEpochById(id: string): (r: Option<Epoch>)
    ensures r.None? <==> forall i :: 0 <= i < |Epochs| ==> Epochs[i].id != id
    ensures r.Some? ==>
      exists i :: 0 <= i < |Epochs| && Epochs[i] == r.value && r.value.id == id &&
        (forall j :: 0 <= j < i ==> Epochs[j].id != id)
  {
    if Find(Epochs, EpochIdIs(id)).Some? then
      FindFirst(Epochs, EpochIdIs(id));
      Find(Epochs, EpochIdIs(id))
    else None
  }

  /** getEpochsByYear: the epochs whose range holds the year, in table order. */
  function GetEpochsByYear(year: int): (r: seq<Epoch>)
    ensures forall i :: 0 <= i < |r| ==> r[i].startYear <= year <= r[i].endYear
    ensures forall i :: 0 <= i < |Epochs| && Epochs[i].startYear <= year <= Epochs[i].endYear ==> Epochs[i] in r
    ensures forall i :: 0 <= i < |r| ==> r[i] in Epochs
    ensures IsSubsequence(r, Epochs)
  {
    FilterSpec(Epochs, CoversYear(year));
    Filter(Epochs, CoversYear(year))
  }

  /** The table's ids are distinct and every range is non-empty and ordered. */
  lemma TableWellFormed()
    ensures forall i, j :: 0 <= i < j < |Epochs| ==> Epochs[i].id != Epochs[j].id
    ensures forall i :: 0 <= i < |Epochs| ==> Epochs[i].startYear < Epochs[i].endYear
  {
  }

  /** The table's tails, which the filter walks through. */
  lemma TableTails()
    ensures Epochs[1..] == [Baroque, Impressionism, Modernism, Contemporary]
    ensures Epochs[2..] == [Impressionism, Modernism, Contemporary]
    ensures Epochs[3..] == [Modernism, Contemporary]
    ensures Epochs[4..] == [Contemporary]
    ensures Epochs[5..] == []
  {
  }

  /** 1600 ends the Renaissance and starts the Baroque: both apply. */
  lemma Year1600()
    ensures GetEpochsByYear(1600) == [Renaissance, Baroque]
  {
    TableTails();
    assert Filter(Epochs[4..], CoversYear(1600)) == [];
    assert Filter(Epochs[3..], CoversYear(1600)) == [];
    assert Filter(Epochs[2..], CoversYear(1600)) == [];
    assert Filter(Epochs[1..], CoversYear(1600)) == [Baroque];
  }

  /** 1890 ends Impressionism and starts Modernism: both apply. */
  lemma Year1890()
    ensures GetEpochsByYear(1890) == [Impressionism, Modernism]
  {
    TableTails();
    assert Filter(Epochs[4..], CoversYear(1890)) == [];
    assert Filter(Epochs[3..], CoversYear(1890)) == [Modernism];
    assert Filter(Epochs[2..], CoversYear(1890)) == [Impressionism, Modernism];
    assert Filter(Epochs[1..], CoversYear(1890)) == [Impressionism, Modernism];
  }

  /** 1970 ends Modernism and starts the Contemporary epoch: both apply. */
  lemma Year1970()
    ensures GetEpochsByYear(1970) == [Modernism, Contemporary]
  {
    TableTails();
    assert Filter(Epochs[4..], CoversYear(1970)) == [Contemporary];
    assert Filter(Epochs[3..], CoversYear(1970)) == [Modernism, Contemporary];
    assert Filter(Epochs[2..], CoversYear(1970)) == [Modernism, Contemporary];
    assert Filter(Epochs[1..], CoversYear(1970)) == [Modernism, Contemporary];
  }

  /** Between the end of the Baroque and the start of Impressionism no epoch applies. */
  lemma GapYears(year: int)
    requires 1751 <= year <= 1859
    ensures GetEpochsByYear(year) == []
  {
  }

  /** Every table id finds its own entry; an id outside the table finds nothing. */
  lemma LookupById(id: string)
    ensures forall i :: 0 <= i < |Epochs| ==> GetEpochById(Epochs[i].id) == Some(Epochs[i])
    ensures GetEpochById(id).Some? <==> exists i :: 0 <= i < |Epochs| && Epochs[i].id == id
  {
    TableWellFormed();
  }
}
