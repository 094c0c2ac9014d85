/** The weather records: what the weather source answers and what the
    application keeps. Numbers are only copied, so they are integers here. */
module WeatherTypes {
  import opened Wrappers
  import opened IsoTime

  datatype CurrentWeather = CurrentWeather(
    temperature: int,
    description: string,
    humidity: int,
    windSpeed: int,
    icon: string)

  datatype TemperatureRange = TemperatureRange(min: int, max: int)

  /** One forecast day; `date` is `None` when the source's date text did
      not parse (an Invalid Date). */
  datatype WeatherForecast = WeatherForecast(
    date: Option<Time>,
    temperature: TemperatureRange,
    description: string,
    humidity: int,
    windSpeed: int,
    icon: string)

  datatype WeatherData = WeatherData(
    location: string,
    current: CurrentWeather,
    forecast: seq<WeatherForecast>,
    lastUpdated: Time)

  datatype Condition = Condition(text: string, icon: string)

  datatype ApiCurrent = ApiCurrent(tempC: int, condition: Condition, humidity: int, windKph: int)

  datatype ApiDay = ApiDay(maxTempC: int, minTempC: int, condition: Condition, avgHumidity: int)

  /** A forecast day as the source sends it, its date as `YYYY-MM-DD` text. */
  datatype ApiForecastDay = ApiForecastDay(date: string, day: ApiDay)

  datatype WeatherApiResponse = WeatherApiResponse(
    location: string,
    current: ApiCurrent,
    forecastDays: seq<ApiForecastDay>)
}
