/** Values shared by the backend handlers and the client: optional values and handler outcomes. */
module Outcomes {

  datatype Option<+T> = None | Some(value: T)

  /** A request field that a handler's validators check, named by its path in the request body. */
  datatype Field =
    | TitleField | DescriptionField | LocationField | LatField | LngField | CategoryField
    | ImagesField | StatusField | ProblemField | DifficultyField | CostField | TimeField
    | VoteTypeField | TextField
  {
    function Path(): string {
      match this
      case TitleField => "title"
      case DescriptionField => "description"
      case LocationField => "location"
      case LatField => "coordinates.lat"
      case LngField => "coordinates.lng"
      case CategoryField => "category"
      case ImagesField => "images"
      case StatusField => "status"
      case ProblemField => "problem"
      case DifficultyField => "difficulty"
      case CostField => "estimatedCost"
      case TimeField => "estimatedTime"
      case VoteTypeField => "voteType"
      case TextField => "text"
    }
  }

  /** Why a request handler refused: HTTP 400 with the names of the fields that failed validation,
      404 for a missing document, 403 for an actor who is not the required author, and 500 for a
      failure the database raises while saving. */
  datatype Failure =
    | BadRequest(fields: seq<Field>)
    | NotFound
    | Forbidden
    | ServerError

  /** The outcome of a request handler: the response body, or why it was refused. */
  datatype Response<+T> = Ok(value: T) | Err(failure: Failure)
}
