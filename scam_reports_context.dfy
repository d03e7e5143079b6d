/** The report store (src/context/ScamReportsContext.tsx): reports, banks,
    one shared loading flag and an error message, changed by three remote
    operations whose outcome is a parameter here. */
module ScamReportsContext {
  import opened Wrappers

  /** A report as the reports endpoint returns it. */
  datatype ScamReport = ScamReport(
    id: string,
    reportersName: string, reportersEmail: string, reportersPhone: string,
    scammersName: string, businessName: string, scammersAccount: string,
    scammersBank: string, scammersPhone: string,
    scammersInstagram: Option<string>, scammersTwitter: Option<string>,
    dateOccurred: string, description: string,
    scammersImage: Option<string>, otherDocuments: Option<string>,
    createdAt: string)

  datatype Bank = Bank(code: string, name: string)

  /** A file chosen in a file input. */
  datatype File = File(name: string)

  /** One `FormData.append(key, value)` entry of a multipart body. */
  datatype FormPart = TextPart(key: string, text: string) | FilePart(key: string, file: File)

  const FetchReportsFailed: string := "Failed to fetch scam reports"
  const FetchBanksFailed: string := "Failed to fetch banks"
  const CreateReportFailed: string := "Failed to create scam report"

  class ScamReportsStore {
    var reports: seq<ScamReport>
    var banks: seq<Bank>
    var loading: bool
    var error: Option<string>

    constructor ()
      ensures reports == [] && banks == [] && !loading && error == None
    {
      reports := [];
      banks := [];
      loading := false;
      error := None;
    }

    /** `fetchReports`: replace the reports, or record the failure; never throws. */
    method FetchReports(response: Outcome<seq<ScamReport>>)
      modifies this
      ensures !loading && banks == old(banks)
      ensures response.Success? ==> reports == response.data && error == old(error)
      ensures response.Failure? ==> reports == old(reports) && error == Some(FetchReportsFailed)
    {
      loading := true;
      match response {
        case Success(data) => reports := data;
        case Failure(_) => error := Some(FetchReportsFailed);
      }
      loading := false;
    }

    /** `fetchBanks`: replace the banks, or record the failure; never throws. */
    method FetchBanks(response: Outcome<seq<Bank>>)
      modifies this
      ensures !loading && reports == old(reports)
      ensures response.Success? ==> banks == response.data && error == old(error)
      ensures response.Failure? ==> banks == old(banks) && error == Some(FetchBanksFailed)
    {
      loading := true;
      match response {
        case Success(data) => banks := data;
        case Failure(_) => error := Some(FetchBanksFailed);
      }
      loading := false;
    }

    /** `createReport(reportData)`: on success the created report is put in
        front of the list; on failure the failure is recorded and re-thrown
        (returned in `raised`). The payload goes to the server only. */
    method CreateReport(reportData: seq<FormPart>, response: Outcome<ScamReport>) returns (raised: Option<Thrown>)
      modifies this
      ensures !loading && banks == old(banks)
      ensures response.Success? ==> reports == [response.data] + old(reports) && error == old(error) && raised == None
      ensures response.Failure? ==> reports == old(reports) && error == Some(CreateReportFailed)
                                    && raised == Some(response.thrown)
    {
      loading := true;
      match response {
        case Success(created) =>
          reports := [created] + reports;
          raised := None;
        case Failure(thrown) =>
          error := Some(CreateReportFailed);
          raised := Some(thrown);
      }
      loading := false;
    }

    /** The mount effect: `fetchReports()` then `fetchBanks()`, each taken as
        completing before the next starts. */
    method Mount(reportsResponse: Outcome<seq<ScamReport>>, banksResponse: Outcome<seq<Bank>>)
      modifies this
      ensures !loading
      ensures reports == (if reportsResponse.Success? then reportsResponse.data else old(reports))
      ensures banks == (if banksResponse.Success? then banksResponse.data else old(banks))
      ensures error == (if banksResponse.Failure? then Some(FetchBanksFailed)
                        else if reportsResponse.Failure? then Some(FetchReportsFailed)
                        else old(error))
    {
      FetchReports(reportsResponse);
      FetchBanks(banksResponse);
    }
  }

  /** A failed bank fetch after a successful report fetch, from a fresh store:
      the banks stay empty, the reports stay fetched, and the error is the
      bank failure message. */
  method FailedBanksKeepReports(data: seq<ScamReport>, thrown: Thrown) returns (store: ScamReportsStore)
    ensures fresh(store)
    ensures store.banks == [] && store.reports == data
    ensures store.error == Some(FetchBanksFailed) && !store.loading
  {
    store := new ScamReportsStore();
    store.Mount(Success(data), Failure(thrown));
  }

  /** Fetching the same report list twice leaves the store as fetching it once. */
  method FetchReportsTwice(store: ScamReportsStore, data: seq<ScamReport>)
    modifies store
    ensures store.reports == data && store.banks == old(store.banks)
    ensures store.error == old(store.error) && !store.loading
  {
    store.FetchReports(Success(data));
    store.FetchReports(Success(data));
  }

  /** A later success does not clear an earlier error. */
  method ErrorSurvivesSuccess(store: ScamReportsStore, thrown: Thrown, data: seq<ScamReport>)
    modifies store
    ensures store.reports == data && store.error == Some(FetchReportsFailed)
  {
    store.FetchReports(Failure(thrown));
    store.FetchReports(Success(data));
  }
}
