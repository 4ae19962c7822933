/** The course record the upload page writes and the admin page moderates. */
module Courses {

  /** The fields of a course document (the server-assigned `createdAt` is not modelled). */
  datatype Course = Course(
    title: string,
    description: string,
    thumbnailBase64: string,
    creatorId: string,
    creatorName: string,
    status: string)

  const Pending := "pending"
  const Approved := "approved"

  /** The filter of the moderation query: `where("status", "==", "pending")`. */
  predicate IsPending(c: Course)
  {
    c.status == Pending
  }

  /** The patch of an approval: `{ status: "approved" }`, every other field kept. */
  function MarkApproved(c: Course): Course
  {
    c.(status := Approved)
  }
}
