/**
 * Student listing and dashboard counts (Api\AlumnoController::stats and
 * ::resumen): enrollments are mapped to display rows, rows without a user
 * are dropped, and enrollments are counted per academic status.
 */
module Alumnos {
  import opened Wrappers

  /** The backed enum behind `academic_status`. */
  datatype AcademicStatus = Pending | Active | Completed | Failed | Dropped {
    function Value(): string {
      match this
      case Pending => "pending"
      case Active => "active"
      case Completed => "completed"
      case Failed => "failed"
      case Dropped => "dropped"
    }
  }

  datatype User = User(
    id: int,
    fullname: Option<string>,
    name: Option<string>,
    email: Option<string>,
    dni: Option<string>,
    avatar: Option<string>,
    phone: Option<string>,
    createdAt: Option<string>,   // already in ISO-8601 form
    updatedAt: Option<string>)

  datatype Course = Course(name: string)
  datatype CourseVersion = CourseVersion(course: Option<Course>)
  datatype Group = Group(status: string, courseVersion: Option<CourseVersion>)

  datatype Enrollment = Enrollment(
    user: Option<User>,
    academicStatus: Option<AcademicStatus>,
    groupId: Option<int>,
    group: Option<Group>)

  datatype StudentProfile = StudentProfile(userId: int, interests: Option<seq<string>>, learningGoal: Option<string>)

  datatype Certificate = Certificate(userId: int)

  /** One entry of `alumnos`. */
  datatype Alumno = Alumno(
    id: int,
    nombre: Option<string>,
    email: Option<string>,
    dni: string,
    avatar: Option<string>,
    telefono: string,
    estado: string,
    curso: string,
    grupoId: Option<int>,
    fechaRegistro: Option<string>,
    ultimaActualizacion: Option<string>,
    interests: seq<string>,
    learningGoal: string)

  const NoCourse: string := "Sin curso asignado"
  const NoPhone: string := "No registrado"
  const Graduate: string := "egresado"

  /** The displayed status: the enum value, "pending" when unset, "egresado" for certified completions. */
  function Estado(status: Option<AcademicStatus>, certified: bool): (r: string)
    ensures r == Graduate <==> certified && status == Some(Completed)
    ensures status.None? ==> r == "pending"
    ensures r in {"pending", "active", "completed", "failed", "dropped", Graduate}
  {
    var estado := if status.Some? then status.value.Value() else "pending";
    if certified && estado == "completed" then Graduate else estado
  }

  /** The course name when group, version and course are all there. */
  function CursoOf(group: Option<Group>): (r: string)
    ensures r != NoCourse ==>
      group.Some? && group.value.courseVersion.Some? && group.value.courseVersion.value.course.Some?
      && r == group.value.courseVersion.value.course.value.name
  {
    if group.Some? && group.value.courseVersion.Some? && group.value.courseVersion.value.course.Some?
    then group.value.courseVersion.value.course.value.name
    else NoCourse
  }

  predicate HasCertificate(certificates: seq<Certificate>, userId: int) {
    exists i | 0 <= i < |certificates| :: certificates[i].userId == userId
  }

  /** `StudentProfile::where('user_id', id)->first()`. */
  function ProfileOf(profiles: seq<StudentProfile>, userId: int): (r: Option<StudentProfile>)
    ensures r.Some? ==> r.value.userId == userId && r.value in profiles
    ensures r.None? ==> forall i | 0 <= i < |profiles| :: profiles[i].userId != userId
  {
    if profiles == [] then None
    else if profiles[0].userId == userId then Some(profiles[0])
    else ProfileOf(profiles[1..], userId)
  }

  /** The row for one enrollment; None (later filtered out) when it has no user. */
  function Row(e: Enrollment, profiles: seq<StudentProfile>, certificates: seq<Certificate>): (r: Option<Alumno>)
    ensures r.None? <==> e.user.None?
    ensures r.Some? ==> r.value.id == e.user.value.id && r.value.grupoId == e.groupId
                        && r.value.email == e.user.value.email
  {
    if e.user.None? then None
    else
      var u := e.user.value;
      var profile := ProfileOf(profiles, u.id);
      Some(Alumno(
        u.id,
        if u.fullname.Some? then u.fullname else u.name,
        u.email,
        u.dni.GetOr(""),
        u.avatar,
        u.phone.GetOr(NoPhone),
        Estado(e.academicStatus, HasCertificate(certificates, u.id)),
        CursoOf(e.group),
        e.groupId,
        u.createdAt,
        u.updatedAt,
        if profile.Some? then profile.value.interests.GetOr([]) else [],
        if profile.Some? then profile.value.learningGoal.GetOr("") else ""))
  }

  /** `map(Row)->filter()->values()`: the rows of user-bearing enrollments, renumbered from 0. */
  function Listing(es: seq<Enrollment>, profiles: seq<StudentProfile>, certificates: seq<Certificate>): (r: seq<Alumno>)
    ensures |r| == WithUser(es)
    ensures forall i | 0 <= i < |r| :: exists k | 0 <= k < |es| :: Row(es[k], profiles, certificates) == Some(r[i])
  {
    if es == [] then []
    else
      var row := Row(es[0], profiles, certificates);
      (if row.Some? then [row.value] else []) + Listing(es[1..], profiles, certificates)
  }

  /** How many enrollments have a user. */
  function WithUser(es: seq<Enrollment>): nat {
    if es == [] then 0 else (if es[0].user.Some? then 1 else 0) + WithUser(es[1..])
  }

  /** The enrollments whose status is exactly `s`, in order. */
  function WithStatus(es: seq<Enrollment>, s: AcademicStatus): (r: seq<Enrollment>)
    ensures |r| <= |es|
    ensures forall i | 0 <= i < |r| :: r[i].academicStatus == Some(s)
    ensures forall x :: multiset(r)[x] == if x.academicStatus == Some(s) then multiset(es)[x] else 0
  {
    if es == [] then []
    else
      assert es == [es[0]] + es[1..];
      (if es[0].academicStatus == Some(s) then [es[0]] else []) + WithStatus(es[1..], s)
  }

  /** The enrollments with no status at all. */
  function Unset(es: seq<Enrollment>): (r: seq<Enrollment>)
    ensures forall i | 0 <= i < |r| :: r[i].academicStatus.None?
    ensures forall x :: multiset(r)[x] == if x.academicStatus.None? then multiset(es)[x] else 0
  {
    if es == [] then []
    else
      assert es == [es[0]] + es[1..];
      (if es[0].academicStatus.None? then [es[0]] else []) + Unset(es[1..])
  }

  /** `where('academic_status', s)->count()`. */
  function Count(es: seq<Enrollment>, s: AcademicStatus): (r: nat)
    ensures r <= |es|
    ensures r == 0 <==> forall i | 0 <= i < |es| :: es[i].academicStatus != Some(s)
    ensures r == |es| <==> forall i | 0 <= i < |es| :: es[i].academicStatus == Some(s)
  {
    NoneKept(es, s);
    AllKept(es, s);
    |WithStatus(es, s)|
  }

  /** No enrollment has status `s` exactly when none is kept. */
  lemma {:induction false} NoneKept(es: seq<Enrollment>, s: AcademicStatus)
    ensures |WithStatus(es, s)| == 0 <==> forall i | 0 <= i < |es| :: es[i].academicStatus != Some(s)
  {
    if es != [] {
      NoneKept(es[1..], s);
      assert WithStatus(es, s) == (if es[0].academicStatus == Some(s) then [es[0]] else []) + WithStatus(es[1..], s);
      assert forall i | 1 <= i < |es| :: es[i] == es[1..][i - 1];
    }
  }

  /** Every enrollment has status `s` exactly when all are kept. */
  lemma {:induction false} AllKept(es: seq<Enrollment>, s: AcademicStatus)
    ensures |WithStatus(es, s)| == |es| <==> forall i | 0 <= i < |es| :: es[i].academicStatus == Some(s)
  {
    if es != [] {
      AllKept(es[1..], s);
      assert WithStatus(es, s) == (if es[0].academicStatus == Some(s) then [es[0]] else []) + WithStatus(es[1..], s);
      assert |WithStatus(es[1..], s)| <= |es| - 1;
      assert forall i | 1 <= i < |es| :: es[i] == es[1..][i - 1];
    }
  }

  datatype Stats = Stats(
    pendientes: nat,
    cursando: nat,
    completados: nat,
    reprobados: nat,
    desertores: nat,
    egresados: nat,
    totalMatriculados: nat)

  /** The `stats` block: per-status counts, certificates issued, all enrollments. */
  function StatsOf(es: seq<Enrollment>, certificates: seq<Certificate>): (r: Stats)
    ensures r.pendientes + r.cursando + r.completados + r.reprobados + r.desertores + |Unset(es)|
         == r.totalMatriculados
    ensures r.egresados == |certificates|
    ensures r.pendientes == Count(es, Pending) && r.cursando == Count(es, Active)
    ensures r.completados == Count(es, Completed) && r.reprobados == Count(es, Failed)
    ensures r.desertores == Count(es, Dropped)
    ensures r.totalMatriculados == |es|
  {
    Partition(es);
    Stats(Count(es, Pending), Count(es, Active), Count(es, Completed), Count(es, Failed),
          Count(es, Dropped), |certificates|, |es|)
  }

  datatype Resumen = Resumen(
    matriculados: nat,
    inactivos: nat,
    egresados: nat,
    pendientes: nat,
    completados: nat,
    gruposActivos: nat,
    gruposEnInscripcion: nat,
    totalEstudiantes: nat)

  function GroupsWithStatus(groups: seq<Group>, status: string): (r: nat)
    ensures r <= |groups|
    ensures r == 0 <==> forall i | 0 <= i < |groups| :: groups[i].status != status
  {
    if groups == [] then 0
    else (if groups[0].status == status then 1 else 0) + GroupsWithStatus(groups[1..], status)
  }

  /** The `resumen` response: the same counts, group counts, and active plus pending students. */
  function ResumenOf(es: seq<Enrollment>, certificates: seq<Certificate>, groups: seq<Group>): (r: Resumen)
    ensures r.totalEstudiantes == r.matriculados + r.pendientes
    ensures r.totalEstudiantes <= |es|
    ensures r.matriculados == Count(es, Active) && r.pendientes == Count(es, Pending)
    ensures r.inactivos == Count(es, Dropped) && r.completados == Count(es, Completed)
    ensures r.egresados == |certificates|
    ensures r.gruposActivos == GroupsWithStatus(groups, "active")
    ensures r.gruposEnInscripcion == GroupsWithStatus(groups, "enrolling")
  {
    Partition(es);
    var active, pending := Count(es, Active), Count(es, Pending);
    Resumen(active, Count(es, Dropped), |certificates|, pending, Count(es, Completed),
            GroupsWithStatus(groups, "active"), GroupsWithStatus(groups, "enrolling"), active + pending)
  }

  /** Every enrollment has exactly one of the five statuses or none. */
  lemma {:induction false} Partition(es: seq<Enrollment>)
    ensures Count(es, Pending) + Count(es, Active) + Count(es, Completed) + Count(es, Failed)
          + Count(es, Dropped) + |Unset(es)| == |es|
  {
    if es != [] {
      var tail := es[1..];
      Partition(tail);
      CountStep(es, Pending);
      CountStep(es, Active);
      CountStep(es, Completed);
      CountStep(es, Failed);
      CountStep(es, Dropped);
      assert |Unset(es)| == (if es[0].academicStatus.None? then 1 else 0) + |Unset(tail)|;
      match es[0].academicStatus
      case None =>
      case Some(Pending) =>
      case Some(Active) =>
      case Some(Completed) =>
      case Some(Failed) =>
      case Some(Dropped) =>
    }
  }

  lemma CountStep(es: seq<Enrollment>, s: AcademicStatus)
    requires es != []
    ensures Count(es, s) == (if es[0].academicStatus == Some(s) then 1 else 0) + Count(es[1..], s)
  {
    assert WithStatus(es, s) == (if es[0].academicStatus == Some(s) then [es[0]] else []) + WithStatus(es[1..], s);
  }

  /** The status rules: unset reads as pending, and only a certified completion becomes "egresado". */
  lemma EstadoRules(status: Option<AcademicStatus>, certified: bool)
    ensures Estado(status, certified) == Graduate <==> certified && status == Some(Completed)
    ensures Estado(None, certified) == "pending"
    ensures status.Some? && !(certified && status == Some(Completed)) ==> Estado(status, certified) == status.value.Value()
  {
  }

  /** The fixed defaults of a row. */
  lemma RowDefaults(e: Enrollment, profiles: seq<StudentProfile>, certificates: seq<Certificate>)
    ensures Row(e, profiles, certificates).None? <==> e.user.None?
    ensures e.user.Some? ==>
      var u := e.user.value;
      var a := Row(e, profiles, certificates).value;
      var p := ProfileOf(profiles, u.id);
      && a.id == u.id
      && (u.phone.None? ==> a.telefono == NoPhone)
      && (u.phone.Some? ==> a.telefono == u.phone.value)
      && (u.dni.None? ==> a.dni == "")
      && (u.dni.Some? ==> a.dni == u.dni.value)
      && (p.None? ==> a.interests == [] && a.learningGoal == "")
      && (p.Some? && p.value.interests.None? ==> a.interests == [])
      && (p.Some? && p.value.interests.Some? ==> a.interests == p.value.interests.value)
      && (p.Some? && p.value.learningGoal.None? ==> a.learningGoal == "")
      && (p.Some? && p.value.learningGoal.Some? ==> a.learningGoal == p.value.learningGoal.value)
      && a.curso == CursoOf(e.group)
      && (u.fullname.None? ==> a.nombre == u.name)
      && (u.fullname.Some? ==> a.nombre == u.fullname)
      && a.email == u.email && a.avatar == u.avatar && a.grupoId == e.groupId
      && a.fechaRegistro == u.createdAt && a.ultimaActualizacion == u.updatedAt
      && a.estado == Estado(e.academicStatus, HasCertificate(certificates, u.id))
  {
  }

  /** The course name appears exactly when the whole group, version, course chain is present. */
  lemma CursoRule(group: Option<Group>)
    ensures group.Some? && group.value.courseVersion.Some? && group.value.courseVersion.value.course.Some?
      ==> CursoOf(group) == group.value.courseVersion.value.course.value.name
    ensures group.None? || group.value.courseVersion.None? || group.value.courseVersion.value.course.None?
      ==> CursoOf(group) == NoCourse
  {
  }

  /**
   * The listing drops user-less enrollments and renumbers: it has one row
   * per user-bearing enrollment, and the row of the enrollment at position
   * `k` sits at the number of user-bearing enrollments before it.
   */
  lemma {:induction false} ListingReindexed(es: seq<Enrollment>, profiles: seq<StudentProfile>,
                                            certificates: seq<Certificate>, k: int)
    requires 0 <= k < |es| && es[k].user.Some?
    ensures |Listing(es, profiles, certificates)| == WithUser(es)
    ensures WithUser(es[..k]) < WithUser(es)
    ensures Listing(es, profiles, certificates)[WithUser(es[..k])] == Row(es[k], profiles, certificates).value
  {
    var rest := Listing(es[1..], profiles, certificates);
    if k == 0 {
      assert es[..0] == [];
    } else {
      assert es[..k][1..] == es[1..][..k - 1];
      ListingReindexed(es[1..], profiles, certificates, k - 1);
    }
  }

  /**
   * An enrollment without a status is listed as "pending" but not counted
   * among `pendientes`, which query the stored status.
   */
  lemma UnsetListedAsPending(es: seq<Enrollment>, e: Enrollment, profiles: seq<StudentProfile>,
                              certificates: seq<Certificate>)
    requires e.user.Some? && e.academicStatus.None?
    ensures Row(e, profiles, certificates).value.estado == "pending"
    ensures Count(es + [e], Pending) == Count(es, Pending)
  {
    var with, without := WithStatus(es + [e], Pending), WithStatus(es, Pending);
    assert multiset(es + [e]) == multiset(es) + multiset{e};
    assert multiset(with) == multiset(without) by {
      forall x ensures multiset(with)[x] == multiset(without)[x] {
      }
    }
    assert |with| == |multiset(with)| == |multiset(without)| == |without|;
  }
}
