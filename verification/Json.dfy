/**
 The bodies that travel: JSON trees over some kind of text. An array's entries and
 an object's members are the same list of fields; an array's carry empty keys.
 */
module Json {
  datatype Json<+T> =
    | Null
    | Bool(b: bool)
    | Number(n: int)
    | Text(text: T)
    | Array(fields: Fields<T>)
    | Object(fields: Fields<T>)

  datatype Fields<+T> = End | Field(key: string, value: Json<T>, rest: Fields<T>)
}
