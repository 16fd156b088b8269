/** gRPC status codes and the error a handler returns through `status.Error`. */
module Codes {

  datatype Code = OK | InvalidArgument | NotFound | AlreadyExists | PermissionDenied | Unauthenticated | Internal

  datatype Status = Status(code: Code, message: string)
}
