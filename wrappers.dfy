/** Option and Result values used where the Java code returns null or throws. */
module Wrappers {

  /** A value that may be absent; None stands for Java's null. */
  datatype Option<+T> = None | Some(value: T)

  /** The outcome of an operation that can throw; Failure carries the exception's message. */
  datatype Result<+T> = Success(value: T) | Failure(error: string)

  /** Java's StringBuilder.append(Object) writes "null" for a null reference, so afterwards a null
      cannot be told from the string "null". */
  function AppendText(o: Option<string>): (r: string)
    ensures o.Some? ==> r == o.value
    ensures r == "null" <==> o == None || o == Some("null")
  {
    match o
    case Some(s) => s
    case None => "null"
  }
}
