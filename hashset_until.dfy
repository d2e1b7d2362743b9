/** Package `until` carries a copy of the first forty-five lines of the
    `util` set: the same struct, `NewHashSet`, `Add`, `Remove`, `Contains`,
    `Size`, `Clear` and `ToSlice`, identical apart from the package clause. It is the
    same type here, so every contract proved for `HashSetUtil.HashSet`
    holds for it. */
module HashSetUntil {
  import HashSetUtil

  type HashSet<T(==)> = HashSetUtil.HashSet<T>

  /** `NewHashSet`: a fresh, empty set. */
  method NewHashSet<T(==)>() returns (s: HashSet<T>)
    ensures fresh(s) && s.data == {}
  {
    s := new HashSetUtil.HashSet();
  }
}
