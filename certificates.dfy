/** Issuing a completion certificate for one student's enrollment. */
module Certificates {
  import opened Wrappers
  import opened Strings

  /** The parts of a student the certificate reads; `studentId` is the
      student number, `id` the record key. */
  datatype Student = Student(id: string, studentId: string, name: string)

  /** The parts of an enrollment the certificate reads. Dates are instants in
      milliseconds; None stands for null. */
  datatype Enrollment = Enrollment(
    courseId: string,
    courseTitle: string,
    completedAt: Option<nat>,
    grade: Option<int>,
    attendance: int)

  datatype Certificate = Certificate(
    id: string,
    studentId: string,
    studentName: string,
    courseId: string,
    courseTitle: string,
    completedAt: nat,
    grade: int,
    attendance: int,
    issuedAt: nat,
    certificateNumber: string)

  /** The certificate number: "CERT-", the year, "-", then the drawn number
      left-padded with zeros to five digits. */
  function CertificateNumber(year: int, draw: nat): string {
    "CERT-" + IntToString(year) + "-" + PadStart(NatToString(draw), 5, '0')
  }

  /** `generateCertificate`. The clock is read three times: for the year of
      the number, for a missing completion date (`completedFallback`) and for
      the issue instant (`issuedNow`); these and
      `Math.floor(Math.random() * 100000)` (`draw`) are inputs. */
  function GenerateCertificate(student: Student, enrollment: Enrollment, year: int, completedFallback: nat, issuedNow: nat, draw: nat): (c: Certificate)
    requires draw < 100000
    ensures c.id == "cert-" + student.id + "-" + enrollment.courseId
    ensures c.studentId == student.studentId && c.studentName == student.name
    ensures c.courseId == enrollment.courseId && c.courseTitle == enrollment.courseTitle
    ensures c.attendance == enrollment.attendance
    ensures c.completedAt == if enrollment.completedAt.Some? then enrollment.completedAt.value else completedFallback
    ensures c.grade == if enrollment.grade.Some? then enrollment.grade.value else 0
    ensures c.issuedAt == issuedNow
    ensures c.certificateNumber == CertificateNumber(year, draw)
  {
    Certificate(
      "cert-" + student.id + "-" + enrollment.courseId,
      student.studentId,
      student.name,
      enrollment.courseId,
      enrollment.courseTitle,
      match enrollment.completedAt case Some(t) => t case None => completedFallback,
      match enrollment.grade case Some(g) => (if g != 0 then g else 0) case None => 0,
      enrollment.attendance,
      issuedNow,
      CertificateNumber(year, draw))
  }

  /** The number ends in exactly five digits that read back as the draw, after
      "CERT-", the year and "-". */
  lemma {:induction false} CertificateNumberShape(year: int, draw: nat)
    requires draw < 100000
    ensures var n := CertificateNumber(year, draw);
      var y := IntToString(year);
      |n| == 5 + |y| + 1 + 5
      && n[..5] == "CERT-" && n[5..5 + |y|] == y && n[5 + |y|] == '-'
      && AllDigits(n[|n| - 5..]) && DigitsValue(n[|n| - 5..]) == draw
  {
    var y := IntToString(year);
    var digits := PadStart(NatToString(draw), 5, '0');
    assert Pow10(5) == 100000;
    NatToStringLength(draw, 5);
    PadStartValue(draw, 5);
    var n := CertificateNumber(year, draw);
    assert n == "CERT-" + y + "-" + digits;
    assert n[|n| - 5..] == digits;
  }

  /** Within one year, different draws give different certificate numbers. */
  lemma {:induction false} CertificateNumberInjective(year: int, d1: nat, d2: nat)
    requires d1 < 100000 && d2 < 100000 && d1 != d2
    ensures CertificateNumber(year, d1) != CertificateNumber(year, d2)
  {
    CertificateNumberShape(year, d1);
    CertificateNumberShape(year, d2);
  }

  /** The certificate id determines the course for a given student. */
  lemma {:induction false} CertificateIdPerCourse(student: Student, e1: Enrollment, e2: Enrollment, year: int, t1: nat, t2: nat, draw: nat)
    requires draw < 100000
    requires GenerateCertificate(student, e1, year, t1, t2, draw).id == GenerateCertificate(student, e2, year, t1, t2, draw).id
    ensures e1.courseId == e2.courseId
  {
    var p := "cert-" + student.id + "-";
    assert "cert-" + student.id + "-" + e1.courseId == p + e1.courseId;
    assert "cert-" + student.id + "-" + e2.courseId == p + e2.courseId;
    assert (p + e1.courseId)[|p|..] == e1.courseId;
    assert (p + e2.courseId)[|p|..] == e2.courseId;
  }
}
