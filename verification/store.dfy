/** The collections the services read and write. Courses, students and
    discounts are stored as values that a service replaces when it saves
    them; enrollments and payments are objects whose fields the services
    update in place. Keys are the documents' identifiers. */
module Store {
  import opened Common
  import CourseModel
  import DiscountModel
  import EnrollmentModel
  import PaymentModel

  /** The part of a student record the core reads: contact data for the
      course report, the active flag for authentication, and the list of
      courses the enrollment service appends to. */
  datatype Student = Student(
    id: Id,
    nombre: string,
    email: string,
    celular: string,
    activo: bool,
    listaCursosIds: seq<Id>)

  /** The stored collections. Every document is stored under its own
      identifier (`courses[k].id == k`, and likewise for the other maps):
      the services look documents up by id and save them back under
      `document.id`. */
  class Database {
    var courses: map<Id, CourseModel.Course>
    var students: map<Id, Student>
    var discounts: map<Id, DiscountModel.Discount>
    var enrollments: map<Id, EnrollmentModel.Enrollment>
    var payments: map<Id, PaymentModel.Payment>

    constructor ()
      ensures courses == map[] && students == map[] && discounts == map[]
      ensures enrollments == map[] && payments == map[]
    {
      courses := map[];
      students := map[];
      discounts := map[];
      enrollments := map[];
      payments := map[];
    }
  }
}
