/**
 * The size catalog `sizeLookupTable` of js/sizeLookup.js: for each stocking length
 * ("thigh_length", "knee_length") and sub-length class ("Normal", "Petite") an ordered
 * list of eight size rows. Each row holds closed measurement ranges in centimetres:
 * A ankle, B calf, C thigh, D leg length and G the thigh range of the G+ (extended) cut.
 * Knee rows have no C and no G field.
 */
module SizeLookup {
  import opened Wrappers

  /** The X_min / X_max pair of a row. */
  datatype Range = Range(min: real, max: real)

  datatype SizeRow = SizeRow(A: Range, B: Range, C: Option<Range>, D: Range, G: Option<Range>, Size: int)

  /** Stocking length -> sub-length class -> size list. */
  type Table = map<string, map<string, seq<SizeRow>>>

  function ThighRow(a0: real, a1: real, b0: real, b1: real, c0: real, c1: real,
                    d0: real, d1: real, g0: real, g1: real, size: int): SizeRow
  {
    SizeRow(Range(a0, a1), Range(b0, b1), Some(Range(c0, c1)), Range(d0, d1), Some(Range(g0, g1)), size)
  }

  function KneeRow(a0: real, a1: real, b0: real, b1: real, d0: real, d1: real, size: int): SizeRow
  {
    SizeRow(Range(a0, a1), Range(b0, b1), None, Range(d0, d1), None, size)
  }

  /** The first 'Normal' literal under 'thigh_length' (leg length 72-95). */
  const ThighNormalFirst: seq<SizeRow> := [
    ThighRow(17.0, 19.0, 27.0, 32.0, 42.0, 47.0, 72.0, 95.0, 48.0, 56.0, 1),
    ThighRow(19.0, 21.0, 29.0, 36.0, 44.0, 51.0, 72.0, 95.0, 52.0, 61.0, 2),
    ThighRow(21.0, 23.0, 32.0, 39.0, 48.0, 55.0, 72.0, 95.0, 56.0, 66.0, 3),
    ThighRow(23.0, 25.0, 34.0, 42.0, 52.0, 59.0, 72.0, 95.0, 60.0, 71.0, 4),
    ThighRow(25.0, 27.0, 36.0, 45.0, 55.0, 63.0, 72.0, 95.0, 64.0, 76.0, 5),
    ThighRow(27.0, 29.0, 38.0, 48.0, 59.0, 67.0, 72.0, 95.0, 68.0, 81.0, 6),
    ThighRow(29.0, 31.0, 40.0, 50.0, 63.0, 70.0, 72.0, 95.0, 71.0, 83.0, 7),
    ThighRow(30.0, 33.0, 42.0, 52.0, 67.0, 73.0, 72.0, 95.0, 74.0, 90.0, 8)
  ]

  /** The second 'Normal' literal under 'thigh_length' (leg length 72-83): the one that survives. */
  const ThighNormal: seq<SizeRow> := [
    ThighRow(17.0, 19.0, 27.0, 32.0, 42.0, 47.0, 72.0, 83.0, 48.0, 56.0, 1),
    ThighRow(19.0, 21.0, 29.0, 36.0, 44.0, 51.0, 72.0, 83.0, 52.0, 61.0, 2),
    ThighRow(21.0, 23.0, 32.0, 39.0, 48.0, 55.0, 72.0, 83.0, 56.0, 66.0, 3),
    ThighRow(23.0, 25.0, 34.0, 42.0, 52.0, 59.0, 72.0, 83.0, 60.0, 71.0, 4),
    ThighRow(25.0, 27.0, 36.0, 45.0, 55.0, 63.0, 72.0, 83.0, 64.0, 76.0, 5),
    ThighRow(27.0, 29.0, 38.0, 48.0, 59.0, 67.0, 72.0, 83.0, 68.0, 81.0, 6),
    ThighRow(29.0, 31.0, 40.0, 50.0, 63.0, 70.0, 72.0, 83.0, 71.0, 83.0, 7),
    ThighRow(30.0, 33.0, 42.0, 52.0, 67.0, 73.0, 72.0, 83.0, 74.0, 90.0, 8)
  ]

  const KneePetite: seq<SizeRow> := [
    KneeRow(17.0, 19.0, 27.0, 32.0, 20.0, 38.0, 1),
    KneeRow(19.0, 21.0, 29.0, 36.0, 20.0, 38.0, 2),
    KneeRow(21.0, 23.0, 32.0, 39.0, 20.0, 38.0, 3),
    KneeRow(23.0, 25.0, 34.0, 42.0, 20.0, 38.0, 4),
    KneeRow(25.0, 27.0, 36.0, 45.0, 20.0, 38.0, 5),
    KneeRow(27.0, 29.0, 38.0, 48.0, 20.0, 38.0, 6),
    KneeRow(29.0, 31.0, 40.0, 50.0, 20.0, 38.0, 7),
    KneeRow(30.0, 33.0, 42.0, 52.0, 20.0, 38.0, 8)
  ]

  const KneeNormal: seq<SizeRow> := [
    KneeRow(17.0, 19.0, 27.0, 32.0, 39.0, 50.0, 1),
    KneeRow(19.0, 21.0, 29.0, 36.0, 39.0, 50.0, 2),
    KneeRow(21.0, 23.0, 32.0, 39.0, 39.0, 50.0, 3),
    KneeRow(23.0, 25.0, 34.0, 42.0, 39.0, 50.0, 4),
    KneeRow(25.0, 27.0, 36.0, 45.0, 39.0, 50.0, 5),
    KneeRow(27.0, 29.0, 38.0, 48.0, 39.0, 50.0, 6),
    KneeRow(29.0, 31.0, 40.0, 50.0, 39.0, 50.0, 7),
    KneeRow(30.0, 33.0, 42.0, 52.0, 39.0, 50.0, 8)
  ]

  /**
   * The object literal itself. The key 'Normal' appears twice under 'thigh_length'; in a map
   * display, as in a JavaScript object literal, the later entry wins.
   */
  const SizeLookupTable: Table := map[
    "thigh_length" := map["Normal" := ThighNormalFirst, "Normal" := ThighNormal],
    "knee_length" := map["Petite" := KneePetite, "Normal" := KneeNormal]
  ]

  predicate RangeValid(r: Range) { r.min < r.max }

  predicate RowRangesValid(row: SizeRow) {
    && RangeValid(row.A) && RangeValid(row.B) && RangeValid(row.D)
    && (row.C.Some? ==> RangeValid(row.C.value))
    && (row.G.Some? ==> RangeValid(row.G.value))
  }

  predicate ListRangesValid(rows: seq<SizeRow>) {
    forall i | 0 <= i < |rows| :: RowRangesValid(rows[i])
  }

  /** Every range of every row is non-empty: no deviation computed from it divides by zero. */
  predicate TableRangesValid(t: Table) {
    forall length | length in t :: forall kind | kind in t[length] :: ListRangesValid(t[length][kind])
  }

  /** Eight rows whose Size fields are 1..8 in index order. */
  predicate IndexedBySize(rows: seq<SizeRow>) {
    |rows| == 8 && forall i | 0 <= i < |rows| :: rows[i].Size == i + 1
  }

  /** The ranges of `next` start and end no lower than those of `row`. */
  predicate Grows(row: SizeRow, next: SizeRow) {
    && row.A.min <= next.A.min && row.A.max <= next.A.max
    && row.B.min <= next.B.min && row.B.max <= next.B.max
    && row.D.min <= next.D.min && row.D.max <= next.D.max
  }

  /** From each size to the next the ankle, calf and length ranges never shrink. */
  predicate Ascending(rows: seq<SizeRow>) {
    forall i | 0 <= i < |rows| - 1 :: Grows(rows[i], rows[i + 1])
  }

  /** The surviving key structure of the literal: no thigh 'Petite' list, and thigh 'Normal' is the 72-83 list. */
  lemma CatalogKeys()
    ensures SizeLookupTable.Keys == {"thigh_length", "knee_length"}
    ensures SizeLookupTable["thigh_length"].Keys == {"Normal"}
    ensures "Petite" !in SizeLookupTable["thigh_length"]
    ensures SizeLookupTable["thigh_length"]["Normal"] == ThighNormal != ThighNormalFirst
    ensures SizeLookupTable["knee_length"].Keys == {"Petite", "Normal"}
    ensures SizeLookupTable["knee_length"]["Petite"] == KneePetite
    ensures SizeLookupTable["knee_length"]["Normal"] == KneeNormal
  {
    assert ThighNormal[0].D != ThighNormalFirst[0].D;
  }

  /** Every list of the catalog has eight rows, row i holding size i + 1, so list[size - 1].Size == size. */
  lemma CatalogIndexedBySize()
    ensures forall length, kind | length in SizeLookupTable && kind in SizeLookupTable[length] ::
      IndexedBySize(SizeLookupTable[length][kind])
  {
    CatalogKeys();
  }

  /** min < max for every range of every row of the catalog. */
  lemma CatalogRangesValid()
    ensures TableRangesValid(SizeLookupTable)
  {
    CatalogKeys();
    assert ListRangesValid(ThighNormal);
    assert ListRangesValid(KneePetite);
    assert ListRangesValid(KneeNormal);
  }

  /** Thigh rows carry C and G, knee rows carry neither, and on every thigh row C_max < G_min. */
  lemma CatalogThighColumns()
    ensures forall i | 0 <= i < |ThighNormal| ::
      ThighNormal[i].C.Some? && ThighNormal[i].G.Some? && ThighNormal[i].C.value.max < ThighNormal[i].G.value.min
    ensures forall i | 0 <= i < |KneePetite| :: KneePetite[i].C.None? && KneePetite[i].G.None?
    ensures forall i | 0 <= i < |KneeNormal| :: KneeNormal[i].C.None? && KneeNormal[i].G.None?
  {
  }

  /** Knee leg-length ranges: 20-38 for Petite and 39-50 for Normal, on every row. */
  lemma CatalogKneeLengths()
    ensures forall i | 0 <= i < |KneePetite| :: KneePetite[i].D == Range(20.0, 38.0)
    ensures forall i | 0 <= i < |KneeNormal| :: KneeNormal[i].D == Range(39.0, 50.0)
    ensures forall i | 0 <= i < |ThighNormal| :: ThighNormal[i].D == Range(72.0, 83.0)
  {
  }

  /** The ankle, calf and length ranges grow with the size in the surviving thigh list. */
  lemma ThighNormalAscending()
    ensures Ascending(ThighNormal)
  {
    var t := ThighNormal;
    assert Grows(t[0], t[1]) && Grows(t[1], t[2]) && Grows(t[2], t[3]) && Grows(t[3], t[4]);
    assert Grows(t[4], t[5]) && Grows(t[5], t[6]) && Grows(t[6], t[7]);
  }

  /** The ankle, calf and length ranges grow with the size in both knee lists. */
  lemma KneeAscending()
    ensures Ascending(KneePetite) && Ascending(KneeNormal)
  {
    var p, n := KneePetite, KneeNormal;
    assert Grows(p[0], p[1]) && Grows(p[1], p[2]) && Grows(p[2], p[3]) && Grows(p[3], p[4]);
    assert Grows(p[4], p[5]) && Grows(p[5], p[6]) && Grows(p[6], p[7]);
    assert Grows(n[0], n[1]) && Grows(n[1], n[2]) && Grows(n[2], n[3]) && Grows(n[3], n[4]);
    assert Grows(n[4], n[5]) && Grows(n[5], n[6]) && Grows(n[6], n[7]);
  }
}
