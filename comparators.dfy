/** The six sort orders the file list offers: by name, upload date and size, each both ways. */
module Comparators {
  import opened Wrappers
  import opened Text
  import opened Entries

  /** `nameAsc`: lower-cased names, compared as JavaScript compares strings. */
  function NameAsc(a: FileEntry, b: FileEntry): (r: int)
    ensures -1 <= r <= 1
    ensures r < 0 <==> LexLess(Lower(a.name), Lower(b.name))
    ensures r > 0 <==> LexLess(Lower(b.name), Lower(a.name))
  {
    LexLessAsymmetric(Lower(a.name), Lower(b.name));
    if LexLess(Lower(a.name), Lower(b.name)) then -1
    else if LexLess(Lower(b.name), Lower(a.name)) then 1
    else 0
  }

  /** `nameDsc`: the same tests as `nameAsc`, with the answers swapped. */
  function NameDsc(a: FileEntry, b: FileEntry): (r: int)
    ensures r == -NameAsc(a, b)
  {
    if LexLess(Lower(a.name), Lower(b.name)) then 1
    else if LexLess(Lower(b.name), Lower(a.name)) then -1
    else 0
  }

  /**
   * The rule `uploadAsc` and `sizeAsc` share, on a property that may be missing: a missing second
   * value answers 1 before anything else is looked at; a missing first value fails both numeric
   * tests (`undefined > n` and `undefined < n` are false) and answers 0.
   */
  function AscendingAsWritten(x: Option<int>, y: Option<int>): (r: int)
    ensures -1 <= r <= 1
  {
    if y.None? || (x.Some? && x.value > y.value) then 1
    else if x.Some? && x.value < y.value then -1
    else 0
  }

  /** The rule of `uploadDsc` and `sizeDsc`: the tests of the ascending rule, answers swapped. */
  function DescendingAsWritten(x: Option<int>, y: Option<int>): (r: int)
    ensures r == -AscendingAsWritten(x, y)
  {
    if y.None? || (x.Some? && x.value > y.value) then -1
    else if x.Some? && x.value < y.value then 1
    else 0
  }

  /** `uploadAsc`: by upload date, oldest first. */
  function UploadAsc(a: FileEntry, b: FileEntry): (r: int)
    ensures -1 <= r <= 1
    ensures a.date.Some? && b.date.Some? ==>
      (r < 0 <==> a.date.value < b.date.value) && (r == 0 <==> a.date.value == b.date.value)
  {
    AscendingAsWritten(a.date, b.date)
  }

  function UploadDsc(a: FileEntry, b: FileEntry): (r: int)
    ensures r == -UploadAsc(a, b)
  {
    DescendingAsWritten(a.date, b.date)
  }

  /** `sizeAsc`: by size, smallest first. */
  function SizeAsc(a: FileEntry, b: FileEntry): (r: int)
    ensures -1 <= r <= 1
    ensures a.size.Some? && b.size.Some? ==>
      (r < 0 <==> a.size.value < b.size.value) && (r == 0 <==> a.size.value == b.size.value)
  {
    AscendingAsWritten(a.size, b.size)
  }

  function SizeDsc(a: FileEntry, b: FileEntry): (r: int)
    ensures r == -SizeAsc(a, b)
  {
    DescendingAsWritten(a.size, b.size)
  }

  /**
   * The name order is a proper three-way comparison: swapping the arguments negates the answer,
   * and the answer is 0 exactly when the names agree once lower-cased.
   */
  lemma NameAscAntisymmetric(a: FileEntry, b: FileEntry)
    ensures NameAsc(a, b) == -NameAsc(b, a)
    ensures NameAsc(a, b) == 0 <==> Lower(a.name) == Lower(b.name)
  {
    var x, y := Lower(a.name), Lower(b.name);
    LexLessAsymmetric(x, y);
    LexLessIrreflexive(x);
    if x != y {
      LexLessTotal(x, y);
    }
  }

  /**
   * Where both values are present, the date and size orders are the numeric three-way comparison,
   * and swapping the arguments negates the answer; each order is stated on its own condition.
   */
  lemma PresentValuesCompareNumerically(a: FileEntry, b: FileEntry)
    ensures a.date.Some? && b.date.Some? ==>
      UploadAsc(a, b) == (if a.date.value < b.date.value then -1 else if a.date.value > b.date.value then 1 else 0) &&
      UploadAsc(a, b) == -UploadAsc(b, a)
    ensures a.size.Some? && b.size.Some? ==>
      SizeAsc(a, b) == (if a.size.value < b.size.value then -1 else if a.size.value > b.size.value then 1 else 0) &&
      SizeAsc(a, b) == -SizeAsc(b, a)
  {
  }

  /**
   * What the date and size orders say about missing values: a missing second value makes the
   * ascending order answer 1 whatever the first is; a missing first value against a present second
   * one makes it answer 0.
   */
  lemma MissingValuesAsWritten(a: FileEntry, b: FileEntry)
    ensures b.date.None? ==> UploadAsc(a, b) == 1 && UploadDsc(a, b) == -1
    ensures b.size.None? ==> SizeAsc(a, b) == 1 && SizeDsc(a, b) == -1
    ensures a.date.None? && b.date.Some? ==> UploadAsc(a, b) == 0 && UploadDsc(a, b) == 0
    ensures a.size.None? && b.size.Some? ==> SizeAsc(a, b) == 0 && SizeDsc(a, b) == 0
  {
  }

  /**
   * Missing values are not consistently ordered: an entry without a date compares as greater than
   * itself, and against a dated entry it is "greater" one way round and "equal" the other way.
   */
  lemma MissingValuesNotAntisymmetric()
    ensures var undated := FileEntry("a", Some(MachineCodeType), Some(LocalOrigin), None, None, None, []);
            var dated := FileEntry("b", Some(MachineCodeType), Some(LocalOrigin), Some(5), Some(5), None, []);
            UploadAsc(undated, undated) == 1 && UploadAsc(undated, undated) != -UploadAsc(undated, undated) &&
            UploadAsc(dated, undated) == 1 && UploadAsc(undated, dated) == 0 &&
            SizeAsc(dated, undated) == 1 && SizeAsc(undated, dated) == 0 &&
            UploadDsc(dated, undated) == -1 && UploadDsc(undated, dated) == 0
  {
  }

  /**
   * A consistent rule for a property that may be missing, chosen as the correction (the code's own
   * tests do not settle where missing values belong): missing values sort after
   * every present one in both directions and are equal among themselves; present values compare
   * numerically, reversed when `descending`.
   */
  function MissingLast(x: Option<int>, y: Option<int>, descending: bool): (r: int)
  {
    if x.None? && y.None? then 0
    else if x.None? then 1
    else if y.None? then -1
    else if x.value == y.value then 0
    else if (x.value < y.value) != descending then -1
    else 1
  }

  function UploadAscIntended(a: FileEntry, b: FileEntry): (r: int) { MissingLast(a.date, b.date, false) }
  function UploadDscIntended(a: FileEntry, b: FileEntry): (r: int) { MissingLast(a.date, b.date, true) }
  function SizeAscIntended(a: FileEntry, b: FileEntry): (r: int) { MissingLast(a.size, b.size, false) }
  function SizeDscIntended(a: FileEntry, b: FileEntry): (r: int) { MissingLast(a.size, b.size, true) }

  /**
   * The corrected rule is a total preorder in both directions: antisymmetric, transitive, and it
   * puts an entry with a missing value after every entry with a present one.
   */
  lemma MissingLastIsConsistent(x: Option<int>, y: Option<int>, z: Option<int>, descending: bool)
    ensures MissingLast(x, y, descending) == -MissingLast(y, x, descending)
    ensures MissingLast(x, y, descending) <= 0 && MissingLast(y, z, descending) <= 0 ==> MissingLast(x, z, descending) <= 0
    ensures x.None? && y.Some? ==> MissingLast(x, y, descending) == 1 && MissingLast(y, x, descending) == -1
    ensures MissingLast(x, y, descending) == 0 <==> x == y
  {
  }

  /** The corrected date and size orders, applied to entries. */
  lemma IntendedOrdersAreConsistent(a: FileEntry, b: FileEntry)
    ensures UploadAscIntended(a, b) == -UploadAscIntended(b, a) && UploadDscIntended(a, b) == -UploadDscIntended(b, a)
    ensures SizeAscIntended(a, b) == -SizeAscIntended(b, a) && SizeDscIntended(a, b) == -SizeDscIntended(b, a)
    ensures a.date.None? && b.date.Some? ==> UploadAscIntended(a, b) > 0 && UploadDscIntended(a, b) > 0
    ensures a.size.None? && b.size.Some? ==> SizeAscIntended(a, b) > 0 && SizeDscIntended(a, b) > 0
  {
    MissingLastIsConsistent(a.date, b.date, a.date, false);
    MissingLastIsConsistent(a.date, b.date, a.date, true);
    MissingLastIsConsistent(a.size, b.size, a.size, false);
    MissingLastIsConsistent(a.size, b.size, a.size, true);
  }
}
