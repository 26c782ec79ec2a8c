/** The static configuration of `constants.ts`: the bookable services, the
    calendar identities offered on the selection screen and the initial
    appointment list. */
module Catalog {
  import opened Wrappers
  import opened Types

  /** `AVAILABLE_SERVICES`, in catalog order. */
  const AvailableServices: seq<Service> := [
    Service("s1", "Consultoria Estratégica", 60, 35000,
            "Reunião de alinhamento e planejamento estratégico de negócios."),
    Service("s2", "Mentoria Individual", 45, 20000,
            "Sessão um a um para desbloqueio de carreira."),
    Service("s3", "Análise de Perfil", 30, 15000,
            "Revisão rápida de perfil profissional e feedback."),
    Service("s4", "Workshop de Equipe", 120, 80000,
            "Treinamento prático para pequenos grupos.")
  ]

  /** `CLINIC_CALENDARS`: the calendar identities a visitor can pick. */
  const ClinicCalendars: seq<User> := [
    User("cal_001", "Dr. Fernando Cinagava", "fernando@clinica.com", "(11) 99999-9999",
         Some("c_1887...group.calendar.google.com"), Some("")),
    User("cal_002", "Agenda Geral / Recepção", "contato@clinica.com", "(11) 3333-3333",
         Some("primary"), Some("")),
    User("cal_003", "Feriados (Teste de Conexão)", "google@google.com", "",
         Some("en.brazilian#holiday@group.v.calendar.google.com"), Some(""))
  ]

  /** `INITIAL_APPOINTMENTS`. */
  const InitialAppointments: seq<Appointment> := []

  /** The catalog has four services with distinct ids s1 to s4, each of
      positive duration and non-negative price. */
  lemma CatalogShape()
    ensures |AvailableServices| == 4
    ensures forall i :: 0 <= i < 4 ==> AvailableServices[i].id == ["s1", "s2", "s3", "s4"][i]
    ensures forall i, j :: 0 <= i < j < |AvailableServices| ==> AvailableServices[i].id != AvailableServices[j].id
    ensures forall s :: s in AvailableServices ==> s.durationMinutes > 0 && s.priceCents >= 0
    ensures forall s :: s in AvailableServices ==> s.name != ""
  {
  }

  /** Three calendar identities with distinct ids cal_001 to cal_003, each
      carrying a calendar id. */
  lemma CalendarsShape()
    ensures |ClinicCalendars| == 3
    ensures forall i :: 0 <= i < 3 ==> ClinicCalendars[i].id == ["cal_001", "cal_002", "cal_003"][i]
    ensures forall i, j :: 0 <= i < j < |ClinicCalendars| ==> ClinicCalendars[i].id != ClinicCalendars[j].id
    ensures forall u :: u in ClinicCalendars ==> u.calendarId.Some? && u.calendarId.value != ""
  {
  }

  /** The initial list holds no appointment. */
  lemma InitialAppointmentsEmpty()
    ensures |InitialAppointments| == 0
  {
  }
}
