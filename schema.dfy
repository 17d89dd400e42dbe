/** Record shapes of the persisted entities. Timestamps are milliseconds since the epoch. */
module Schema {
  import opened Common

  datatype Patient = Patient(id: string, name: string, age: int, createdAt: int, updatedAt: int)

  /** What a caller supplies to create a patient: the store adds id and both dates. */
  datatype InsertPatient = InsertPatient(name: string, age: int)

  /** A partial patient record: only the present fields are overridden. */
  datatype PatientUpdate = PatientUpdate(name: Option<string>, age: Option<int>)

  /** A stored heart-rate reading; `patientId` and `signalQuality` are nullable columns. */
  datatype HeartRateReading = HeartRateReading(
    id: string,
    patientId: Option<string>,
    heartRate: int,
    timestamp: int,
    signalQuality: Option<real>)

  /** What a caller supplies to create a reading: the store adds the id and the timestamp. */
  datatype InsertHeartRateReading = InsertHeartRateReading(
    patientId: Option<string>,
    heartRate: int,
    signalQuality: Option<real>)
}
