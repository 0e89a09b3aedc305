/** Go slices as the exporter builds them. A nil slice and a slice made with
    `make` can hold the same elements, but Go's JSON encoder writes the first
    as `null` and the second as `[]`, so the model keeps them apart. */
module GoSlice {

  datatype Slice<T> = Nil | Made(items: seq<T>) {

    /** The elements, as a `range` loop or `len` sees them (none for nil). */
    function Items(): seq<T> {
      if Nil? then [] else items
    }

    /** Go's `append(s, x)`: the result is never nil, even when `s` was. */
    function Append(x: T): Slice<T> {
      Made(Items() + [x])
    }
  }
}
