/** The API records the core reads, reduced to the fields it reads
  * (src/types/index.d.ts). Enumerated fields stay strings, since the API
  * may send any string. */
module Records {
  import opened Wrappers

  /** An academic year. */
  datatype Year = Year(id: int, name: string, status: string)

  /** An academic period (semester, quarter, ...) of a year. */
  datatype Period = Period(id: int, name: string, acronym: string, status: string)

  /** A student's registration to a period; the API always sends a status. */
  datatype PeriodEnrollment = PeriodEnrollment(id: int, period: Period, status: string)

  /** A student's registration to a taught course; the status may be null. */
  datatype CourseEnrollment = CourseEnrollment(id: int, student: PeriodEnrollment, status: Option<string>)

  /** A faculty, referred to by test courses. */
  datatype Faculty = Faculty(id: int, name: string)

  /** A subject of the admission test, offered by one faculty. */
  datatype TestCourse = TestCourse(id: int, faculty: Faculty, name: string)

  /** A course of the catalogue. */
  datatype Course = Course(id: int, name: string, code: string)

  /** A teaching unit grouping courses. */
  datatype TeachingUnit = TeachingUnit(id: int, name: string, code: string)
}
