/** Lists as sets. */
module Collections {

  function Elements<T(==)>(list: seq<T>): set<T> {
    set x | x in list
  }
}
