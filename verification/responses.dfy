/** The JSON responses the backend sends, and the outcome of a request that
    the schema check may stop before any controller runs. */
module Responses {
  import opened TaskModel
  import Schema

  /** The user fields a session response exposes; the password hash is not one of them. */
  datatype PublicUser = PublicUser(id: string, name: string, email: string)

  datatype Payload =
    | Message(text: string)
    | OneTask(task: Task)
    | TaskArray(tasks: seq<Task>)
    | Session(token: string, user: PublicUser)

  datatype Response = Response(status: nat, payload: Payload)

  /** The schema-check middleware is not part of the model: all that is known
      is that a rejected body never reaches the controller. */
  datatype Outcome = Reply(response: Response) | SchemaRejected(errors: seq<Schema.FieldError>)

  const TaskNotFound: Response := Response(404, Message("Task not found"))
}
