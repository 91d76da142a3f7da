/** `generate_attendance_background`: the job that runs the per-employee
    generation for every selected employee, keeps the running counters and
    records the outcome on the generator document. */
module Background {
  import opened Common
  import opened FakeTimes
  import opened AttendanceLogs
  import opened FakeDatabase
  import opened GeneratorDoc

  /** The configuration an employee is generated with: their department's,
      or the default one when the department has none. */
  function ConfigFor(configs: map<string, GenConfig>, emp: Employee): (cfg: GenConfig)
    ensures emp.department in configs ==> cfg == configs[emp.department]
    ensures emp.department !in configs ==> cfg == DefaultConfig
  {
    if emp.department in configs then configs[emp.department] else DefaultConfig
  }

  /** One set of draws per employee, each fitting that employee's windows. */
  ghost predicate DrawsFit(employees: seq<Employee>, configs: map<string, GenConfig>, draws: seq<EmployeeDraws>) {
    |draws| == |employees|
    && forall i :: 0 <= i < |employees| ==>
         DiceFit(draws[i].logDice, ConfigFor(configs, employees[i]))
         && DiceFit(draws[i].rowDice, ConfigFor(configs, employees[i]))
  }

  /** The logs stored after the first `n` employees: each pass appends
      the logs it inserted. */
  ghost function RunLogs(logs: seq<AttendanceLog>, employees: seq<Employee>, configs: map<string, GenConfig>,
                         run: Run, draws: seq<EmployeeDraws>, n: nat): seq<AttendanceLog>
    requires DrawsFit(employees, configs, draws) && n <= |employees|
  {
    if n == 0 then logs
    else RunLogs(logs, employees, configs, run, draws, n - 1)
         + EmployeeLogs(employees[n - 1], run, ConfigFor(configs, employees[n - 1]), draws[n - 1])
  }

  /** The attendance records after the first `n` employees. */
  ghost function RunRecords(attendance: seq<AttendanceRecord>, employees: seq<Employee>,
                            configs: map<string, GenConfig>, run: Run, draws: seq<EmployeeDraws>, n: nat)
    : seq<AttendanceRecord>
    requires DrawsFit(employees, configs, draws) && n <= |employees|
  {
    if n == 0 then attendance
    else EmployeeRecords(RunRecords(attendance, employees, configs, run, draws, n - 1), employees[n - 1], run,
                         ConfigFor(configs, employees[n - 1]), draws[n - 1])
  }

  /** The running total after the first `n` employees: the sum of the
      counts their passes return. */
  ghost function RunTotal(employees: seq<Employee>, configs: map<string, GenConfig>, run: Run,
                          draws: seq<EmployeeDraws>, n: nat): nat
    requires DrawsFit(employees, configs, draws) && n <= |employees|
  {
    if n == 0 then 0
    else RunTotal(employees, configs, run, draws, n - 1)
         + |EmployeeLogs(employees[n - 1], run, ConfigFor(configs, employees[n - 1]), draws[n - 1])|
  }

  /** At most two logs per present day of each employee's first pass. */
  ghost function PresentBound(employees: seq<Employee>, configs: map<string, GenConfig>, run: Run,
                              draws: seq<EmployeeDraws>, n: nat): nat
    requires DrawsFit(employees, configs, draws) && n <= |employees|
  {
    if n == 0 then 0
    else
      PresentBound(employees, configs, run, draws, n - 1)
      + 2 * PresentDays(run, ConfigFor(configs, employees[n - 1]), draws[n - 1].logDice, run.end)
  }

  /** Appending to logs that start with `logs` and hold `total` more keeps
      `logs` in front and adds as many as were appended. */
  lemma AppendKeepsFront(logs: seq<AttendanceLog>, prev: seq<AttendanceLog>, added: seq<AttendanceLog>, total: nat)
    requires |prev| == |logs| + total && prev[..|logs|] == logs
    ensures |prev + added| == |logs| + (total + |added|) && (prev + added)[..|logs|] == logs
  {
    assert (prev + added)[..|logs|] == prev[..|logs|];
  }

  /** The total the job reports is the number of logs it added, and the
      logs already stored stay in front. */
  lemma {:induction false} TotalIsLogsAdded(logs: seq<AttendanceLog>, employees: seq<Employee>,
                                            configs: map<string, GenConfig>, run: Run, draws: seq<EmployeeDraws>,
                                            n: nat)
    requires DrawsFit(employees, configs, draws) && n <= |employees|
    ensures |RunLogs(logs, employees, configs, run, draws, n)| == |logs| + RunTotal(employees, configs, run, draws, n)
    ensures RunLogs(logs, employees, configs, run, draws, n)[..|logs|] == logs
  {
    if n > 0 {
      TotalIsLogsAdded(logs, employees, configs, run, draws, n - 1);
      AppendKeepsFront(logs, RunLogs(logs, employees, configs, run, draws, n - 1),
                       EmployeeLogs(employees[n - 1], run, ConfigFor(configs, employees[n - 1]), draws[n - 1]),
                       RunTotal(employees, configs, run, draws, n - 1));
    }
  }

  /** The total never exceeds two logs per present day, summed over the
      employees. */
  lemma {:induction false} TotalBound(employees: seq<Employee>, configs: map<string, GenConfig>, run: Run,
                                      draws: seq<EmployeeDraws>, n: nat)
    requires DrawsFit(employees, configs, draws) && n <= |employees|
    ensures RunTotal(employees, configs, run, draws, n) <= PresentBound(employees, configs, run, draws, n)
  {
    if n > 0 {
      TotalBound(employees, configs, run, draws, n - 1);
      EmployeeRunCreated(employees[n - 1], run, ConfigFor(configs, employees[n - 1]), draws[n - 1]);
    }
  }

  /** `generate_attendance_background`: marks the job running, generates
      for each employee in turn while counting employees and created
      records, then marks the job completed with the total. */
  method GenerateAttendanceBackground(gen: Generator, db: Database, employees: seq<Employee>,
                                      configs: map<string, GenConfig>, run: Run, draws: seq<EmployeeDraws>)
    returns (processed: nat, total: nat)
    requires DrawsFit(employees, configs, draws)
    modifies gen`status, gen`generatedRecords, db
    ensures processed == |employees|
    ensures db.logs == RunLogs(old(db.logs), employees, configs, run, draws, |employees|)
    ensures db.attendance == RunRecords(old(db.attendance), employees, configs, run, draws, |employees|)
    ensures total == RunTotal(employees, configs, run, draws, |employees|)
    ensures gen.status == Completed && gen.generatedRecords == total
    ensures gen.generationLog == old(gen.generationLog)
  {
    gen.status := InProgress;
    ghost var start := db.Contents();
    processed, total := 0, 0;
    for i := 0 to |employees|
      invariant processed == i
      invariant db.logs == RunLogs(start.logs, employees, configs, run, draws, i)
      invariant db.attendance == RunRecords(start.attendance, employees, configs, run, draws, i)
      invariant total == RunTotal(employees, configs, run, draws, i)
    {
      var emp := employees[i];
      var cfg := ConfigFor(configs, emp);
      assert DiceFit(draws[i].logDice, cfg) && DiceFit(draws[i].rowDice, cfg);
      var created := db.GenerateForEmployee(emp, run, cfg, draws[i]);
      total := total + created;
      processed := processed + 1;
    }
    gen.status := Completed;
    gen.generatedRecords := total;
  }
}
