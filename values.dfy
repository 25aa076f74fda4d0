/** The values a decoded reply of the language model can hold, as Python's json
    module produces them. Object entries keep their order, as a Python dict does. */
module Values {

  datatype Value =
    | Null
    | Bool(b: bool)
    | Int(i: int)
    | Float(literal: string)   // floating point is not modelled: the decimal text stands for it
    | Str(s: string)
    | List(items: seq<Value>)
    | Dict(entries: seq<(string, Value)>)

  datatype Option<T> = None | Some(value: T)
}
