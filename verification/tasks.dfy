/** To-do items and reading links (src/life_os/models/tasks.py). */
module Tasks {
  import opened Wrappers
  import Text

  /** A to-do item; priority 1 is high, 3 is low. */
  datatype TaskItem = TaskItem(task: string, priority: Option<int>)

  predicate ValidTask(t: TaskItem) {
    t.priority.None? || 1 <= t.priority.value <= 3
  }

  /** `TaskItem(**fields)`: pydantic rejects a priority outside 1..3 and names the field. */
  function NewTask(raw: TaskItem): (r: Result<TaskItem, seq<string>>)
    ensures r.Success? <==> raw.priority.None? || 1 <= raw.priority.value <= 3
    ensures r.Success? ==> r.value == raw && ValidTask(r.value)
    ensures r.Failure? ==> r.error == ["priority"]
  {
    if ValidTask(raw) then Success(raw) else Failure(["priority"])
  }

  /** `TaskItem(**{**old.model_dump(), **new.model_dump()})` with None fields dropped. */
  function UnionTask(prior: TaskItem, latest: TaskItem): (r: TaskItem)
    ensures r.task == latest.task
    ensures r.priority == Overlay(prior.priority, latest.priority)
    ensures ValidTask(prior) && ValidTask(latest) ==> ValidTask(r)
  {
    TaskItem(latest.task, Overlay(prior.priority, latest.priority))
  }

  /** A link to read later. The URL is kept as the text pydantic's AnyUrl renders. */
  datatype ReadingLink = ReadingLink(url: string, context: Option<string>)

  function UnionLink(prior: ReadingLink, latest: ReadingLink): (r: ReadingLink)
    ensures r.url == latest.url
    ensures r.context == Overlay(prior.context, latest.context)
  {
    ReadingLink(latest.url, Overlay(prior.context, latest.context))
  }

  /** `ReadingLink.url_str`: a bare origin such as "https://host/" loses its trailing slashes;
      every other URL is returned as it is. */
  function UrlStr(link: ReadingLink): (r: string)
    ensures r <= link.url
    ensures r == link.url <==> !(Text.EndsWith(link.url, '/') && Text.Count(link.url, '/') == 3)
    ensures r != link.url ==> !Text.EndsWith(r, '/') && forall i | |r| <= i < |link.url| :: link.url[i] == '/'
  {
    var raw := link.url;
    if Text.EndsWith(raw, '/') && Text.Count(raw, '/') == 3 then Text.RStrip(raw, '/') else raw
  }

  /** Normalising twice is normalising once. */
  lemma UrlStrIdempotent(link: ReadingLink)
    ensures UrlStr(link.(url := UrlStr(link))) == UrlStr(link)
  {
  }

  /** A bare origin loses its trailing slash. */
  lemma UrlStrDropsOriginSlash()
    ensures UrlStr(ReadingLink("http://a.io/", None)) == "http://a.io"
  {
    assert "http://a.io/" == "http:" + "//a.io/";
    Text.CountSplit("http:", "//a.io/", '/');
    assert Text.Count("http:", '/') == 0;
    assert Text.Count("//a.io/", '/') == 3;
    var origin: string := "http://a.io";
    assert "http://a.io/" == origin + ['/'];
    assert Text.RStrip(origin + ['/'], '/') == Text.RStrip(origin, '/');
    assert !Text.EndsWith(origin, '/');
  }

  /** A URL with a path keeps its trailing slash. */
  lemma UrlStrKeepsPathSlash()
    ensures UrlStr(ReadingLink("http://a.io/b/", None)) == "http://a.io/b/"
  {
    assert "http://a.io/b/" == "http:" + "//a.io/b/";
    Text.CountSplit("http:", "//a.io/b/", '/');
    assert Text.Count("http:", '/') == 0;
    assert Text.Count("//a.io/b/", '/') == 4;
  }
}
