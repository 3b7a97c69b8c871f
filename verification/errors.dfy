/** The exceptions the client raises, one constructor per kind of failure. */
module Errors {

  datatype Error =
    | InvalidObjectId          // InvalidArgumentException: the string is not an ObjectId
    | TypeError                // a PHP TypeError or Error: a value of the wrong type was used
    | NotLoggedIn              // "You are not logged in!"
    | NoRightsForOwner         // "You do not have rights for this owner (project)"
    | FileNotFound             // "File ... not exists"
    | WrongDoctype             // "Wrong doctype"
    | UnsupportedType(mime: string)  // "Unsupported type ...!"
    | NoResponse               // "No response"
    | ApiError(code: int)      // RESTClientException "API Error with code ..."
}
