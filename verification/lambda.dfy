/** What the request handlers share: the event they receive and the response they return. */
module Lambda {
  import opened Js

  /** The fields of an API Gateway proxy event the handlers read. */
  datatype Event = Event(httpMethod: string, body: Value)

  /** Why a handler's catch block ran. */
  datatype Cause =
    | BodyNotJson(message: string)  // JSON.parse threw a SyntaxError
    | TypeError(key: string)        // reading property `key` of null or undefined
    | StoreFault(message: string)   // the secret, database or table client threw

  type Header = (string, string)

  /** A proxy response; `payload` stands for the object whose JSON text is the body. */
  datatype Response<P> = Response(statusCode: int, headers: seq<Header>, payload: P)

  const AllowAnyOrigin: Header := ("Access-Control-Allow-Origin", "*")
  const JsonContent: Header := ("Content-Type", "application/json")
  const AllowHeaders: Header :=
    ("Access-Control-Allow-Headers", "Content-Type,X-Amz-Date,Authorization,X-Api-Key,X-Amz-Security-Token")
}
