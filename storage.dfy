/** A localStorage key as the hooks read it back: nothing (or an empty string) stored,
    a value that parses, or text that `JSON.parse` rejects. */
module LocalStorage {

  datatype Entry<T> = Absent | Present(value: T) | Unparsable
}
